/**
 * The three places where das_write as written (das.c:76-88) departs from
 * what it evidently means to do. Each is modelled the way the code reads,
 * with a lemma that names the input showing the difference; the rest of the
 * model uses the corrected behaviour (Command.Decode, Das.DomainTable.Dispatch).
 */
module AsWritten {
  import opened Wrappers
  import opened Command
  import Das

  /** das.c:77: the domain id is read with a `%d` scan that starts at the
      first byte of kbuf, which is the action letter read at das.c:76. */
  function IdScan(kbuf: string): (r: Option<(int, string)>)
    ensures kbuf != [] && !IsSpace(kbuf[0]) && !IsDigit(kbuf[0]) && kbuf[0] != '-' ==> r.None?
    ensures r.Some? ==> |r.value.1| < |kbuf|
  {
    ScanInt(kbuf)
  }

  /** Any buffer that starts with a letter (in particular every 'R' and 'D'
      request) defeats the scan of das.c:77, so `did` keeps whatever value
      the uninitialised stack slot had. */
  lemma LetterDefeatsIdScan(kbuf: string)
    requires kbuf != [] && ('A' <= kbuf[0] <= 'Z' || 'a' <= kbuf[0] <= 'z')
    ensures IdScan(kbuf) == None
  {
  }

  /** "D 5": the code as written finds no id, the corrected reading finds 5. */
  lemma IdScanCounterexample()
    ensures IdScan("D 5") == None
    ensures Decode("D 5") == Some(Request('D', 5, []))
  {
    var r := Request('D', 5, []);
    assert Encode(r) == "D 5";
    DecodeEncode(r);
  }

  /**
   * How many times the body of das.c:86-88 runs within the first `steps`
   * tests of its guard `!sscanf(kbuf, "%d", &mid)`. The body never changes
   * kbuf, so every test scans the same bytes from the same place: the loop
   * runs while the scan fails and stops at once when it succeeds, so it
   * either never runs or runs at every test. The loop is reached only for
   * an 'R' request, whose first byte defeats the scan, so the case where
   * the body never runs cannot arise there (RegisterLoopNeverExits).
   */
  function MemberLoopRuns(kbuf: string, steps: nat): (n: nat)
    ensures n == 0 || n == steps
    ensures n == 0 <==> steps == 0 || ScanInt(kbuf).Some?
  {
    if steps == 0 || ScanInt(kbuf).Some? then 0 else 1 + MemberLoopRuns(kbuf, steps - 1)
  }

  /** For every 'R' request the loop never exits: after any number of guard
      tests it has run that many times, so its (MAX_DOMAIN_CAP + 1)-th run
      writes past the record. */
  lemma RegisterLoopNeverExits(kbuf: string, steps: nat)
    requires kbuf != [] && kbuf[0] == 'R'
    ensures MemberLoopRuns(kbuf, steps) == steps
  {
    LetterDefeatsIdScan(kbuf);
  }

  /** das.c:78: the only test on the domain id. Every id it rejects lies
      outside the table, and on non-negative ids it agrees with the range
      test 0 <= did < maxCount. */
  function IdRejected(did: int, maxCount: nat): (rejected: bool)
    ensures rejected ==> !(0 <= did < maxCount)
    ensures 0 <= did ==> (rejected <==> !(did < maxCount))
  {
    did >= maxCount
  }

  /** A negative id passes the test of das.c:78 although it indexes no slot
      of `ds`; -1 is one. */
  lemma NegativeIdAccepted(did: int)
    requires did < 0
    ensures !IdRejected(did, Das.DOMAIN_MAX_CNT)
    ensures !(0 <= did < Das.DOMAIN_MAX_CNT)
  {
  }
}
