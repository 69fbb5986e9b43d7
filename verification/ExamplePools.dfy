/** Pools that the store accepts, for the inputs that show where a promise ends. */
module ExamplePools {
  import opened PoolFile
  import opened PoolId
  import opened PoolManager

  function Example(id: string, name: string, coin: string, timedTarget: bool, solo: bool): Pool {
    Pool(id, name, coin, [Address("host", 3333)], false, false, "farm", "x", false, timedTarget, solo, false)
  }

  const HOME := Example("home", "home", "BTC", false, false)
  const OTHER := Example("other", "other", "BTC", false, false)
  const SOLO := Example("solo", "solo", "XEC", true, true)
  const POOLS := [HOME, OTHER, SOLO]

  lemma HostIsOk(t: Text)
    ensures AddressesOk(t, [Address("host", 3333)])
  {
    var h := "host";
    assert h[0] == 'h' && h[1] == 'o' && h[2] == 's' && h[3] == 't';
    CountNone(h, ':');
  }

  lemma {:induction false} CountNone(s: string, c: char)
    requires c !in s
    ensures Count(s, c) == 0
  {
    if s != "" {
      CountNone(s[1..], c);
    }
  }

  lemma ExampleOk(t: Text, id: string, name: string, coin: string, timedTarget: bool, solo: bool)
    requires 1 <= |name| <= 64 && |coin| <= 16
    ensures FieldsOk(t, Example(id, name, coin, timedTarget, solo))
  {
    HostIsOk(t);
    hide AddressesOk;
    var user := "farm";
    assert user[0] == 'f' && user[1] == 'a' && user[2] == 'r' && user[3] == 'm';
  }

  lemma IdsAreOk()
    ensures ValidId("home") && ValidId("other") && ValidId("solo")
    ensures "home" != "other" && "home" != "solo" && "other" != "solo"
  {
    assert "home"[0] != "other"[0] && "home"[0] != "solo"[0] && "other"[0] != "solo"[0];
  }

  /** Any roles among the three pools make a file that the store accepts, whatever it takes for an IPv6 address. */
  lemma PoolsAreOk(t: Text, active: string, fallback: seq<string>)
    requires Has(POOLS, active) && Distinct(fallback) && active !in fallback && forall x :: x in fallback ==> Has(POOLS, x)
    ensures WellFormed(t, File(active, fallback, POOLS))
  {
    IdsAreOk();
    ExampleOk(t, "home", "home", "BTC", false, false);
    ExampleOk(t, "other", "other", "BTC", false, false);
    ExampleOk(t, "solo", "solo", "XEC", true, true);
    hide FieldsOk, ValidId;
    assert POOLS[0] == HOME && POOLS[1] == OTHER && POOLS[2] == SOLO;
    assert !Has(POOLS, "");
  }
}
