/** The key of a traffic selector (src/state.c, `en_make_traffic_key`). */
module TrafficKeys {
  import opened Model
  import opened Text

  function VlanText(vlan: int): string {
    if vlan < 0 then "-" + Decimal(-vlan) else Decimal(vlan)
  }

  function VlanSuffix(vlan: Option<int>): string {
    if vlan.Some? then "|vlan=" + VlanText(vlan.value) else ""
  }

  function TrafficKey(t: Traffic): (key: Id)
    ensures |key| > 0
  {
    t.source + "->" + t.destination + VlanSuffix(t.vlan)
  }

  /** For example. */
  lemma KeyExamples()
    ensures TrafficKey(Traffic("a", "b", None)) == "a->b" && TrafficKey(Traffic("a", "b", Some(10))) == "a->b|vlan=10"
  {
    assert Decimal(10) == Decimal(1) + [DigitChar(0)] == "10";
  }

  lemma PowersOfTen()
    ensures Pow10(10) == 10_000_000_000
  {
    assert Pow10(5) == 100_000;
    assert Pow10(10) == 100_000 * Pow10(5);
  }

  /** The key always fits its buffer, so `snprintf` never cuts it short. */
  lemma KeyNeverTruncated(t: Traffic)
    requires |t.source| < MAX_ID_LEN && |t.destination| < MAX_ID_LEN
    requires t.vlan.Some? ==> -0x8000_0000 <= t.vlan.value < 0x8000_0000
    ensures |TrafficKey(t)| < MAX_TRAFFIC_KEY_LEN
  {
    if t.vlan.Some? {
      var v := t.vlan.value;
      PowersOfTen();
      DecimalLength(if v < 0 then -v else v, 10);
      assert |VlanSuffix(t.vlan)| <= 6 + 11;
    }
  }

  lemma VlanTextInjective(a: int, b: int)
    requires VlanText(a) == VlanText(b)
    ensures a == b
  {
    DecimalRoundTrip(if a < 0 then -a else a);
    DecimalRoundTrip(if b < 0 then -b else b);
    assert VlanText(a)[0] == '-' <==> a < 0;
    assert VlanText(b)[0] == '-' <==> b < 0;
    if a < 0 && b < 0 { assert VlanText(a)[1..] == Decimal(-a) && VlanText(b)[1..] == Decimal(-b); }
  }

  /** No mark `c` occurs in `s`. */
  predicate Free(s: string, c: char) {
    forall i :: 0 <= i < |s| ==> s[i] != c
  }

  lemma MarkPosition(s: string, a: string, rest: string, c: char)
    requires s == a + [c] + rest && Free(a, c)
    ensures |a| < |s| && s[|a|] == c && forall i :: 0 <= i < |a| ==> s[i] != c
    ensures s[..|a|] == a && s[|a| + 1..] == rest
  {
  }

  /** Where a mark first occurs determines how a string splits around it. */
  lemma SplitAtMark(a: string, a': string, rest: string, rest': string, c: char)
    requires Free(a, c) && Free(a', c)
    requires a + [c] + rest == a' + [c] + rest'
    ensures a == a' && rest == rest'
  {
    var s := a + [c] + rest;
    MarkPosition(s, a, rest, c);
    MarkPosition(s, a', rest', c);
  }

  /** A present suffix starts at its mark. */
  lemma SuffixMark(d: string, vlan: int)
    ensures d + VlanSuffix(Some(vlan)) == d + ['|'] + ("vlan=" + VlanText(vlan))
  {
    assert "|vlan=" == ['|'] + "vlan=";
  }

  lemma VlanTailInjective(a: int, b: int)
    requires "vlan=" + VlanText(a) == "vlan=" + VlanText(b)
    ensures a == b
  {
    assert ("vlan=" + VlanText(a))[5..] == VlanText(a);
    assert ("vlan=" + VlanText(b))[5..] == VlanText(b);
    VlanTextInjective(a, b);
  }

  /** A destination and a VLAN suffix are determined by their concatenation. */
  lemma SuffixInjective(d: string, v: Option<int>, d': string, v': Option<int>)
    requires Free(d, '|') && Free(d', '|')
    requires d + VlanSuffix(v) == d' + VlanSuffix(v')
    ensures d == d' && v == v'
  {
    hide VlanText;
    if v.Some? { SuffixMark(d, v.value); } else { assert d + VlanSuffix(v) == d; }
    if v'.Some? { SuffixMark(d', v'.value); } else { assert d' + VlanSuffix(v') == d'; }
    if v.Some? && v'.Some? {
      SplitAtMark(d, d', "vlan=" + VlanText(v.value), "vlan=" + VlanText(v'.value), '|');
      VlanTailInjective(v.value, v'.value);
    } else if v.Some? {
      MarkPosition(d', d, "vlan=" + VlanText(v.value), '|');
    } else if v'.Some? {
      MarkPosition(d, d', "vlan=" + VlanText(v'.value), '|');
    }
  }

  lemma TokenIsFree(s: string)
    requires IsToken(s)
    ensures Free(s, '>') && Free(s, '|') && Free(s + "-", '>')
  {
  }

  lemma KeyAtMark(source: string, rest: string)
    ensures source + "->" + rest == (source + "-") + ['>'] + rest
  {
    assert "->" == "-" + ['>'];
    assert source + "->" == (source + "-") + ['>'];
  }

  lemma Regrouped(a: string, b: string, c: string)
    ensures a + b + c == a + (b + c)
  {
  }

  /** The key determines source, destination and VLAN of selectors whose endpoints are tokens. */
  lemma KeyInjective(t: Traffic, u: Traffic)
    requires IsToken(t.source) && IsToken(t.destination) && IsToken(u.source) && IsToken(u.destination)
    requires TrafficKey(t) == TrafficKey(u)
    ensures t == u
  {
    hide VlanSuffix, Free;
    var rest, rest' := t.destination + VlanSuffix(t.vlan), u.destination + VlanSuffix(u.vlan);
    Regrouped(t.source + "->", t.destination, VlanSuffix(t.vlan));
    Regrouped(u.source + "->", u.destination, VlanSuffix(u.vlan));
    KeyAtMark(t.source, rest);
    KeyAtMark(u.source, rest');
    TokenIsFree(t.source);
    TokenIsFree(u.source);
    TokenIsFree(t.destination);
    TokenIsFree(u.destination);
    SplitAtMark(t.source + "-", u.source + "-", rest, rest', '>');
    assert (t.source + "-")[..|t.source|] == t.source && (u.source + "-")[..|u.source|] == u.source;
    SuffixInjective(t.destination, t.vlan, u.destination, u.vlan);
  }
}
