/** The operator session "R 1 100 200", "R 1 300", "D 1", "R 99999" on a
    table of DOMAIN_MAX_CNT slots, checked against the contracts of Das. */
module Scenario {
  import opened Wrappers
  import opened Command
  import opened Das

  lemma ShowNatStep(n: nat)
    ensures n < 10 ==> ShowNat(n) == [DigitChar(n)]
    ensures n >= 10 ==> ShowNat(n) == ShowNat(n / 10) + [DigitChar(n % 10)]
  {
  }

  lemma DecodeRegister()
    ensures Decode("R 1 100 200") == Some(Request('R', 1, [100, 200]))
  {
    var r := Request('R', 1, [100, 200]);
    assert ShowInt(1) == "1" by { ShowNatStep(1); }
    assert ShowInt(100) == "100" by { ShowNatStep(1); ShowNatStep(10); ShowNatStep(100); }
    assert ShowInt(200) == "200" by { ShowNatStep(2); ShowNatStep(20); ShowNatStep(200); }
    assert Join([200]) == " 200" by { assert Join([200][1..]) == ""; }
    assert Join([100, 200]) == " 100 200" by { assert [100, 200][1..] == [200]; }
    assert Encode(r) == "R 1 100 200";
    DecodeEncode(r);
  }

  lemma DecodeAugment()
    ensures Decode("R 1 300") == Some(Request('R', 1, [300]))
  {
    var r := Request('R', 1, [300]);
    assert ShowInt(1) == "1" by { ShowNatStep(1); }
    assert ShowInt(300) == "300" by { ShowNatStep(3); ShowNatStep(30); ShowNatStep(300); }
    assert Join([300]) == " 300" by { assert Join([300][1..]) == ""; }
    assert Encode(r) == "R 1 300";
    DecodeEncode(r);
  }

  lemma DecodeDelete()
    ensures Decode("D 1") == Some(Request('D', 1, []))
  {
    var r := Request('D', 1, []);
    assert ShowInt(1) == "1" by { ShowNatStep(1); }
    assert Encode(r) == "D 1";
    DecodeEncode(r);
  }

  lemma DecodeOutOfRange()
    ensures Decode("R 99999") == Some(Request('R', 99999, []))
  {
    var r := Request('R', 99999, []);
    assert ShowInt(99999) == "99999" by {
      ShowNatStep(9); ShowNatStep(99); ShowNatStep(999); ShowNatStep(9999); ShowNatStep(99999);
    }
    assert Encode(r) == "R 99999";
    DecodeEncode(r);
  }

  /** "R 1 100 200" on a table where domain 1 is absent creates it with
      members 100 and 200. */
  method Register(t: DomainTable)
    requires t.Valid() && t.ds.Length == DOMAIN_MAX_CNT && t.capacity >= 3
    requires t.ds[1] == None
    modifies t.ds
    ensures t.Valid()
    ensures t.ds[1].Some? && t.ds[1].value.Members() == [100, 200]
  {
    assert DOMAIN_MAX_CNT == 128;
    var b1 := "R 1 100 200";
    DecodeRegister();
    var ret, off := t.Write(0, b1, 0);
    assert ret == 11 && off == 11;
  }

  /** "R 1 300" keeps the members of domain 1 and appends 300. */
  method Augment(t: DomainTable)
    requires t.Valid() && t.ds.Length == DOMAIN_MAX_CNT && t.capacity >= 3
    requires t.ds[1].Some? && t.ds[1].value.Members() == [100, 200]
    modifies t.ds
    ensures t.Valid()
    ensures t.ds[1].Some? && t.ds[1].value.Members() == [100, 200, 300]
  {
    assert DOMAIN_MAX_CNT == 128;
    var b2 := "R 1 300";
    DecodeAugment();
    var ret, off := t.Write(0, b2, 0);
    assert ret == 7;
  }

  /** "D 1" then "R 99999": the domain is gone, and the out-of-range id is
      rejected without touching the table. */
  method DeleteThenOutOfRange(t: DomainTable)
    requires t.Valid() && t.ds.Length == DOMAIN_MAX_CNT
    modifies t.ds
  {
    assert DOMAIN_MAX_CNT == 128;
    var b3 := "D 1";
    DecodeDelete();
    var ret, off := t.Write(0, b3, 0);
    var present := t.HasDomain(1);
    assert ret == 3 && !present;

    var b4 := "R 99999";
    DecodeOutOfRange();
    ghost var before := t.ds[..];
    ret, off := t.Write(0, b4, 0);
    assert ret == -EINVAL && off == 0 && t.ds[..] == before;
  }

  /** The whole session on a fresh table, for every record capacity of at
      least three members. */
  method EndToEnd(capacity: nat)
    requires capacity >= 3
  {
    var t := new DomainTable(DOMAIN_MAX_CNT, capacity);
    Register(t);
    Augment(t);
    DeleteThenOutOfRange(t);
  }
}
