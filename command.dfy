/**
 * The text command written to the control file: an action letter, a domain
 * id and, for a registration, a list of member ids, all separated by white
 * space ("R 1 100 200", "D 1").
 *
 * das.c:76-77 and das.c:86 try to read this with sscanf, but every scan
 * starts again at the beginning of the buffer (see module AsWritten). This
 * module is the forward-progressing reading the code evidently intends: the
 * action is the first character, the domain id is the first integer after it,
 * and member ids are read one after another until the input ends or a token
 * is not an integer.
 */
module Command {
  import opened Wrappers

  /** A decoded write: action letter, domain id, member ids in order. */
  datatype Request = Request(action: char, did: int, mids: seq<int>)

  /** White space as the kernel's isspace sees it in ASCII. */
  predicate IsSpace(c: char) {
    c == ' ' || '\t' <= c <= '\r'
  }

  predicate IsDigit(c: char) {
    '0' <= c <= '9'
  }

  predicate AllDigits(s: string) {
    forall i :: 0 <= i < |s| ==> IsDigit(s[i])
  }

  function DigitValue(c: char): int {
    (c as int) - ('0' as int)
  }

  function DigitChar(d: nat): char
    requires d < 10
  {
    (('0' as int) + d) as char
  }

  /** The number a string of decimal digits denotes. */
  function ValueOf(s: string): int {
    if s == [] then 0 else ValueOf(s[..|s| - 1]) * 10 + DigitValue(s[|s| - 1])
  }

  /** Drops leading white space. */
  function SkipSpaces(s: string): (t: string)
    ensures |t| <= |s|
  {
    if s != [] && IsSpace(s[0]) then SkipSpaces(s[1..]) else s
  }

  /** The length of the longest prefix of digits. */
  function DigitRun(s: string): (n: nat)
    ensures n <= |s|
  {
    if s != [] && IsDigit(s[0]) then 1 + DigitRun(s[1..]) else 0
  }

  /** Decimal digits at the start of `u`: their value and what follows them. */
  function ScanDigits(u: string): (r: Option<(int, string)>)
    ensures r.Some? ==> |r.value.1| < |u|
  {
    var n := DigitRun(u);
    if n == 0 then None else Some((ValueOf(u[..n]), u[n..]))
  }

  /** An optional minus sign followed by digits. */
  function ScanSigned(t: string): (r: Option<(int, string)>)
    ensures r.Some? ==> |r.value.1| < |t|
  {
    if t != [] && t[0] == '-' then
      match ScanDigits(t[1..])
      case None => None
      case Some((v, rest)) => Some((-v, rest))
    else ScanDigits(t)
  }

  /** A digit, or a minus sign followed by a digit, starts `t`. */
  predicate StartsInt(t: string) {
    t != [] && (IsDigit(t[0]) || (t[0] == '-' && |t| > 1 && IsDigit(t[1])))
  }

  /**
   * One `%d` conversion: white space, an optional minus sign, then one or
   * more digits. Gives the integer and what follows it, or None when no
   * integer starts here.
   */
  function ScanInt(s: string): (r: Option<(int, string)>)
    ensures r.Some? ==> |r.value.1| < |s| && r.value.1 == s[|s| - |r.value.1|..]
    ensures r.Some? <==> StartsInt(SkipSpaces(s))
  {
    SkipSpacesSuffix(s);
    ScanSigned(SkipSpaces(s))
  }

  /** What SkipSpaces leaves is a suffix of its input. */
  lemma {:induction false} SkipSpacesSuffix(s: string)
    ensures SkipSpaces(s) == s[|s| - |SkipSpaces(s)|..]
  {
    if s != [] && IsSpace(s[0]) {
      SkipSpacesSuffix(s[1..]);
      assert s[1..][|s| - 1 - |SkipSpaces(s[1..])|..] == s[|s| - |SkipSpaces(s)|..];
    }
  }

  /** Integers read one after another until one fails to scan. */
  function ScanInts(s: string): seq<int>
    decreases |s|
  {
    match ScanInt(s)
    case None => []
    case Some((v, rest)) => [v] + ScanInts(rest)
  }

  /** Reads a write buffer; None when there is no action or no domain id. */
  function Decode(buf: string): (r: Option<Request>)
    ensures r.None? <==> buf == [] || ScanInt(buf[1..]).None?
    ensures r.Some? ==> r.value.action == buf[0]
    ensures r.Some? ==> r.value.did == ScanInt(buf[1..]).value.0
  {
    if buf == [] then None
    else
      match ScanInt(buf[1..])
      case None => None
      case Some((did, rest)) => Some(Request(buf[0], did, ScanInts(rest)))
  }

  /** Decimal digits of a natural number, most significant first. */
  function ShowNat(n: nat): string {
    if n < 10 then [DigitChar(n)] else ShowNat(n / 10) + [DigitChar(n % 10)]
  }

  function ShowInt(i: int): string {
    if i < 0 then "-" + ShowNat(-i) else ShowNat(i)
  }

  /** Each id preceded by one space. */
  function Join(ids: seq<int>): string {
    if ids == [] then "" else " " + ShowInt(ids[0]) + Join(ids[1..])
  }

  /** The text an operator writes for a request. */
  function Encode(r: Request): string {
    [r.action] + " " + ShowInt(r.did) + Join(r.mids)
  }

  lemma DigitCharValue(d: nat)
    requires d < 10
    ensures IsDigit(DigitChar(d)) && DigitValue(DigitChar(d)) == d
  {
  }

  lemma {:induction false} ShowNatDigits(n: nat)
    ensures |ShowNat(n)| > 0 && AllDigits(ShowNat(n))
  {
    DigitCharValue(n % 10);
    if n >= 10 {
      ShowNatDigits(n / 10);
    }
  }

  lemma {:induction false} ValueOfShowNat(n: nat)
    ensures ValueOf(ShowNat(n)) == n
  {
    DigitCharValue(n % 10);
    if n >= 10 {
      var s := ShowNat(n);
      assert s[..|s| - 1] == ShowNat(n / 10);
      assert s[|s| - 1] == DigitChar(n % 10);
      ValueOfShowNat(n / 10);
    }
  }

  lemma {:induction false} DigitRunOfDigits(d: string, rest: string)
    requires AllDigits(d)
    requires rest == [] || !IsDigit(rest[0])
    ensures DigitRun(d + rest) == |d|
  {
    if d == [] {
      assert d + rest == rest;
    } else {
      assert (d + rest)[0] == d[0];
      assert (d + rest)[1..] == d[1..] + rest;
      DigitRunOfDigits(d[1..], rest);
    }
  }

  lemma ScanDigitsShowNat(n: nat, rest: string)
    requires rest == [] || !IsDigit(rest[0])
    ensures ScanDigits(ShowNat(n) + rest) == Some((n as int, rest))
  {
    var d := ShowNat(n);
    var u := d + rest;
    ShowNatDigits(n);
    DigitRunOfDigits(d, rest);
    assert u[..|d|] == d && u[|d|..] == rest;
    ValueOfShowNat(n);
  }

  lemma ScanSignedShowInt(i: int, rest: string)
    requires rest == [] || !IsDigit(rest[0])
    ensures ScanSigned(ShowInt(i) + rest) == Some((i, rest))
  {
    var t := ShowInt(i) + rest;
    var m: nat := if i < 0 then -i else i;
    ShowNatDigits(m);
    ScanDigitsShowNat(m, rest);
    if i < 0 {
      assert t == ['-'] + (ShowNat(m) + rest);
      assert t[0] == '-' && t[1..] == ShowNat(m) + rest;
    } else {
      assert t == ShowNat(m) + rest;
      assert t[0] == ShowNat(m)[0];
    }
  }

  /** A printed integer after a space scans back to itself, and the scan stops
      right after its digits. */
  lemma ScanShowInt(i: int, rest: string)
    requires rest == [] || !IsDigit(rest[0])
    ensures ScanInt(" " + ShowInt(i) + rest) == Some((i, rest))
  {
    var t := ShowInt(i) + rest;
    var m: nat := if i < 0 then -i else i;
    ShowNatDigits(m);
    assert t[0] == ShowInt(i)[0];
    assert !IsSpace(t[0]);
    assert (" " + ShowInt(i) + rest)[1..] == t;
    assert SkipSpaces(" " + ShowInt(i) + rest) == t;
    ScanSignedShowInt(i, rest);
  }

  /** White space in front of a text is skipped entirely. */
  lemma {:induction false} SkipSpacesPad(pad: string, t: string)
    requires forall k :: 0 <= k < |pad| ==> IsSpace(pad[k])
    ensures SkipSpaces(pad + t) == SkipSpaces(t)
  {
    if pad != [] {
      assert (pad + t)[0] == pad[0] && (pad + t)[1..] == pad[1..] + t;
      assert SkipSpaces(pad + t) == SkipSpaces(pad[1..] + t);
      SkipSpacesPad(pad[1..], t);
    } else {
      assert pad + t == t;
    }
  }

  /** A printed integer after any run of white space (spaces, tabs, line
      breaks, or none at all) scans back to itself, and the scan stops right
      after its digits. */
  lemma ScanPaddedShowInt(pad: string, i: int, rest: string)
    requires forall k :: 0 <= k < |pad| ==> IsSpace(pad[k])
    requires rest == [] || !IsDigit(rest[0])
    ensures ScanInt(pad + ShowInt(i) + rest) == Some((i, rest))
  {
    var t := ShowInt(i) + rest;
    var m: nat := if i < 0 then -i else i;
    ShowNatDigits(m);
    assert t[0] == ShowInt(i)[0];
    assert !IsSpace(t[0]);
    assert pad + ShowInt(i) + rest == pad + t;
    SkipSpacesPad(pad, t);
    ScanSignedShowInt(i, rest);
  }

  lemma ScanIntsStep(s: string, v: int, rest: string)
    requires ScanInt(s) == Some((v, rest))
    ensures ScanInts(s) == [v] + ScanInts(rest)
  {
  }

  lemma JoinCons(ids: seq<int>, rest: string)
    requires ids != []
    ensures Join(ids) + rest == " " + ShowInt(ids[0]) + (Join(ids[1..]) + rest)
  {
  }

  /** What follows a joined list starts with a space, or is `rest` itself. */
  lemma JoinThenNoDigit(ids: seq<int>, rest: string)
    requires rest == [] || !IsDigit(rest[0])
    ensures Join(ids) + rest == [] || !IsDigit((Join(ids) + rest)[0])
  {
    if ids == [] {
      assert Join(ids) + rest == rest;
    } else {
      JoinCons(ids, rest);
    }
  }

  lemma ConsConcat(x: int, a: seq<int>, b: seq<int>)
    ensures [x] + (a + b) == ([x] + a) + b
  {
  }

  lemma {:induction false} ScanIntsJoin(ids: seq<int>, rest: string)
    requires rest == [] || !IsDigit(rest[0])
    ensures ScanInts(Join(ids) + rest) == ids + ScanInts(rest)
  {
    if ids == [] {
      assert Join(ids) + rest == rest;
    } else {
      var tail := Join(ids[1..]) + rest;
      var s := Join(ids) + rest;
      assert ScanInt(s) == Some((ids[0], tail)) by {
        JoinCons(ids, rest);
        JoinThenNoDigit(ids[1..], rest);
        ScanShowInt(ids[0], tail);
      }
      ScanIntsStep(s, ids[0], tail);
      ScanIntsJoin(ids[1..], rest);
      ConsConcat(ids[0], ids[1..], ScanInts(rest));
      assert [ids[0]] + ids[1..] == ids;
    }
  }

  lemma DecodeStep(buf: string, did: int, tail: string)
    requires buf != [] && ScanInt(buf[1..]) == Some((did, tail))
    ensures Decode(buf) == Some(Request(buf[0], did, ScanInts(tail)))
  {
  }

  lemma SplitHead(c: char, x: string, y: string, z: string)
    ensures ([c] + " " + x + y) + z != []
    ensures (([c] + " " + x + y) + z)[0] == c
    ensures (([c] + " " + x + y) + z)[1..] == " " + x + (y + z)
  {
  }

  lemma EncodeThen(r: Request, rest: string)
    ensures Encode(r) + rest != []
    ensures (Encode(r) + rest)[0] == r.action
    ensures (Encode(r) + rest)[1..] == " " + ShowInt(r.did) + (Join(r.mids) + rest)
  {
    SplitHead(r.action, ShowInt(r.did), Join(r.mids), rest);
  }

  /** Whatever follows an encoded request, as long as it does not extend the
      last number, only adds the integers it scans to the member list. */
  lemma DecodeEncodeThen(r: Request, rest: string)
    requires rest == [] || !IsDigit(rest[0])
    ensures Decode(Encode(r) + rest) == Some(Request(r.action, r.did, r.mids + ScanInts(rest)))
  {
    var buf := Encode(r) + rest;
    var tail := Join(r.mids) + rest;
    EncodeThen(r, rest);
    assert ScanInt(buf[1..]) == Some((r.did, tail)) by {
      JoinThenNoDigit(r.mids, rest);
      ScanShowInt(r.did, tail);
    }
    DecodeStep(buf, r.did, tail);
    ScanIntsJoin(r.mids, rest);
  }

  /** Decoding inverts encoding. */
  lemma DecodeEncode(r: Request)
    ensures Decode(Encode(r)) == Some(r)
  {
    DecodeEncodeThen(r, []);
    assert Encode(r) + [] == Encode(r);
    assert r.mids + [] == r.mids;
  }

  /** Member ids stop at the first token that is not an integer: what follows
      it is ignored. */
  lemma DecodeStopsAtBadToken(r: Request, rest: string)
    requires ScanInt(rest) == None
    ensures Decode(Encode(r) + rest) == Some(r)
  {
    DecodeEncodeThen(r, rest);
    assert r.mids + [] == r.mids;
  }
}
