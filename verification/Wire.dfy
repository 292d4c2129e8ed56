/** What worker, supervisor and controller agree on: the prefixes and suffixes of the lines between them. */
module Wire {
  const MAX_PAGE: nat := 10_000_000_000

  const SUCCESS := "{\"type\":\"success\",\"answers\":["
  const ERROR := "{\"type\":\"error\",\"term\":"
  const FAILURE := "{\"type\":\"failure\"}"
  const MORE := ",\"more\":true}"
  const NO_MORE := ",\"more\":false}"

  predicate StartsWith(s: string, prefix: string) {
    |s| >= |prefix| && s[..|prefix|] == prefix
  }

  predicate EndsWith(s: string, suffix: string) {
    |s| >= |suffix| && s[|s| - |suffix|..] == suffix
  }

  const NUL := 0 as char

  /** What C sees of a text: everything before the first NUL. */
  function CText(s: string): (t: string)
    ensures t <= s && NUL !in t
    ensures |t| < |s| ==> s[|t|] == NUL
  {
    if s == "" || s[0] == NUL then "" else [s[0]] + CText(s[1..])
  }

  lemma {:induction false} CTextWhole(s: string)
    requires NUL !in s
    ensures CText(s) == s
  {
    if s != "" {
      CTextWhole(s[1..]);
    }
  }

  lemma Associate(a: string, b: string, c: string)
    ensures a + b + c == a + (b + c)
  {
  }
}
