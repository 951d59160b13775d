/**
 * The client identity a forwarding proxy reports: the first entry of the
 * comma-separated `x-forwarded-for` chain (src/index.js:37-39).
 */
module Identity {
  import opened Wrappers

  /** The index of the first `c` in `s`, or -1 when `s` holds none (JavaScript `indexOf`). */
  function IndexOf(s: string, c: char): (r: int)
    ensures -1 <= r < |s|
    ensures r >= 0 ==> s[r] == c && c !in s[..r]
    ensures r < 0 <==> c !in s
  {
    if s == [] then -1
    else if s[0] == c then 0
    else
      var k := IndexOf(s[1..], c);
      assert s == [s[0]] + s[1..];
      if k < 0 then -1
      else
        assert s[..k + 1] == [s[0]] + s[1..][..k];
        k + 1
  }

  /**
   * The identity taken from the `x-forwarded-for` header: an absent header
   * counts as the empty string, and the identity is the text before the first
   * comma, or the whole value when there is no comma.
   */
  function ForwardedClient(header: Option<string>): (ip: string)
    ensures header.None? ==> ip == ""
    ensures header.Some? ==> ip <= header.value && ',' !in ip
    ensures header.Some? && ',' in header.value ==> |ip| < |header.value| && header.value[|ip|] == ','
    ensures header.Some? && ',' !in header.value ==> ip == header.value
  {
    var value := if header.Some? then header.value else "";
    var comma := IndexOf(value, ',');
    if comma < 0 then value else value[..comma]
  }

  /** A chain `a,rest` whose first entry has no comma resolves to that first entry. */
  lemma FirstEntry(a: string, rest: string)
    requires ',' !in a
    ensures ForwardedClient(Some(a + "," + rest)) == a
  {
    var v := a + "," + rest;
    var ip := ForwardedClient(Some(v));
    assert v[|a|] == ',';
    assert ',' in v;
    assert ip == v[..|ip|] == a;
  }

  /** The chain "1.2.3.4, 5.6.6.7" identifies the client as "1.2.3.4". */
  lemma FirstOfTwoAddresses()
    ensures ForwardedClient(Some("1.2.3.4, 5.6.6.7")) == "1.2.3.4"
  {
    assert "1.2.3.4, 5.6.6.7" == "1.2.3.4" + "," + " 5.6.6.7";
    FirstEntry("1.2.3.4", " 5.6.6.7");
  }
}
