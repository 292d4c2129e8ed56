/** The continuation cache key: three length-prefixed texts, the format and the once flag. */
module CacheKey {
  import Decimal
  import opened Registry

  function Prefixed(text: string): string {
    Decimal.Show(|text|) + ":" + text
  }

  /** `key_for`. */
  function KeyFor(j: Job): string {
    Prefixed(j.goal) + (Prefixed(j.template) + (Prefixed(j.source) + (j.format + (":" + (if j.once then "1" else "0")))))
  }

  /** The first colon of a counted text ends its length, whatever characters the texts contain. */
  lemma PrefixedSplits(x: string, r: string, y: string, s: string)
    requires Prefixed(x) + r == Prefixed(y) + s
    ensures x == y && r == s
  {
    var a, b := Decimal.Show(|x|), Decimal.Show(|y|);
    var whole := Prefixed(x) + r;
    assert whole == a + (":" + x + r) == b + (":" + y + s);
    assert whole[|a|] == ':' && whole[|b|] == ':';
    assert |a| == |b|;
    assert a == whole[..|a|] == b;
    Decimal.ShowValue(|x|);
    Decimal.ShowValue(|y|);
    assert x == whole[|a| + 1..|a| + 1 + |x|] == y;
    assert r == whole[|a| + 1 + |x|..] == s;
  }

  /** Different queries have different keys: resuming by key can only resume the same query. */
  lemma KeyInjective(a: Job, b: Job)
    requires KeyFor(a) == KeyFor(b)
    ensures a == b
  {
    var fa, fb := a.format + (":" + (if a.once then "1" else "0")), b.format + (":" + (if b.once then "1" else "0"));
    PrefixedSplits(a.goal, Prefixed(a.template) + (Prefixed(a.source) + fa), b.goal, Prefixed(b.template) + (Prefixed(b.source) + fb));
    PrefixedSplits(a.template, Prefixed(a.source) + fa, b.template, Prefixed(b.source) + fb);
    PrefixedSplits(a.source, fa, b.source, fb);
    assert |fa| == |a.format| + 2 && |fb| == |b.format| + 2;
    assert a.format == fa[..|fa| - 2] == fb[..|fb| - 2] == b.format;
    assert fa[|fa| - 1] == fb[|fb| - 1];
  }
}
