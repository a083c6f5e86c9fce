/** Python string semantics the backend relies on: truthiness of strings and
    of string-or-null values, `str.strip()`, the `in` test on strings and
    slicing. Python's whitespace set (str.isspace, also the `\s` class of the
    `re` module on str patterns) is written out character by character. */
module PyStrings {

  datatype Option<+T> = None | Some(value: T)

  /** Python's `s or d` on two strings: the empty string is falsy. */
  function Or(s: string, d: string): string {
    if s != "" then s else d
  }

  /** Truthiness of a string-or-None value (`None` and `""` are falsy). */
  predicate Truthy(v: Option<string>) {
    v.Some? && v.value != ""
  }

  /** The characters for which Python's `str.isspace()` holds. */
  predicate IsSpace(c: char) {
    || ('\t' <= c <= '\r')                 // \t \n \x0b \x0c \r
    || ('\U{1C}' <= c <= '\U{1F}')         // file, group, record, unit separators
    || c == ' ' || c == '\U{85}' || c == '\U{A0}' || c == '\U{1680}'
    || ('\U{2000}' <= c <= '\U{200A}')
    || c == '\U{2028}' || c == '\U{2029}' || c == '\U{202F}' || c == '\U{205F}'
    || c == '\U{3000}'
  }

  predicate AllSpace(s: string) {
    forall k :: 0 <= k < |s| ==> IsSpace(s[k])
  }

  /** Neither end of `s` is whitespace: what `strip()` leaves. */
  predicate Trimmed(s: string) {
    s == [] || (!IsSpace(s[0]) && !IsSpace(s[|s| - 1]))
  }

  /** `s.lstrip()`: the suffix of `s` left after its leading whitespace. */
  function StripStart(s: string): (r: string)
    ensures |r| <= |s| && r == s[|s| - |r|..]
    ensures AllSpace(s[..|s| - |r|])
    ensures r == [] || !IsSpace(r[0])
  {
    if s != [] && IsSpace(s[0]) then
      var r := StripStart(s[1..]);
      assert s[1..][|s| - 1 - |r|..] == s[|s| - |r|..];
      assert forall k :: 1 <= k < |s| - |r| ==> s[k] == s[1..][..|s| - 1 - |r|][k - 1];
      r
    else s
  }

  /** `s.rstrip()`: the prefix of `s` left before its trailing whitespace. */
  function StripEnd(s: string): (r: string)
    ensures |r| <= |s| && r == s[..|r|]
    ensures AllSpace(s[|r|..])
    ensures r == [] || !IsSpace(r[|r| - 1])
  {
    if s != [] && IsSpace(s[|s| - 1]) then
      var r := StripEnd(s[..|s| - 1]);
      assert s[..|s| - 1][..|r|] == s[..|r|];
      assert forall k :: |r| <= k < |s| - 1 ==> s[k] == s[..|s| - 1][|r|..][k - |r|];
      r
    else s
  }

  /** `s.strip()`. */
  function Strip(s: string): (r: string)
    ensures Trimmed(r)
    ensures |r| <= |s|
  {
    StripEnd(StripStart(s))
  }

  /** Whatever `strip()` returns, `s` is that text with whitespace on either side. */
  lemma StripSplits(s: string)
    ensures exists a, b :: AllSpace(a) && AllSpace(b) && s == a + Strip(s) + b
  {
    var a, b := StripParts(s);
  }

  /** The whitespace `strip()` removes from each end. */
  lemma StripParts(s: string) returns (a: string, b: string)
    ensures AllSpace(a) && AllSpace(b) && s == a + Strip(s) + b
  {
    var t := StripStart(s);
    var r := StripEnd(t);
    a, b := s[..|s| - |t|], t[|r|..];
    StripStartSplit(s);
    StripEndSplit(t);
    ConcatAssoc(a, r, b);
  }

  lemma StripStartSplit(s: string)
    ensures s == s[..|s| - |StripStart(s)|] + StripStart(s)
  {
    var t := StripStart(s);
    assert t == s[|s| - |t|..];
  }

  lemma StripEndSplit(t: string)
    ensures t == StripEnd(t) + t[|StripEnd(t)|..]
  {
    var r := StripEnd(t);
    assert r == t[..|r|];
  }

  lemma ConcatAssoc(a: string, r: string, b: string)
    ensures a + (r + b) == a + r + b
  {
    assert forall k :: 0 <= k < |a| + |r| + |b| ==> (a + (r + b))[k] == (a + r + b)[k];
  }

  lemma {:induction false} StripStartAfterSpace(a: string, t: string)
    requires AllSpace(a)
    requires t == [] || !IsSpace(t[0])
    ensures StripStart(a + t) == t
  {
    if a != [] {
      assert (a + t)[1..] == a[1..] + t;
      StripStartAfterSpace(a[1..], t);
    }
  }

  lemma {:induction false} StripEndBeforeSpace(t: string, b: string)
    requires AllSpace(b)
    requires t == [] || !IsSpace(t[|t| - 1])
    ensures StripEnd(t + b) == t
  {
    if b != [] {
      assert (t + b)[..|t + b| - 1] == t + b[..|b| - 1];
      StripEndBeforeSpace(t, b[..|b| - 1]);
    }
  }

  /** `strip()` is determined by its two properties: surrounding a trimmed
      text with whitespace and stripping gives that text back. */
  lemma StripRecovers(a: string, m: string, b: string)
    requires AllSpace(a) && AllSpace(b) && Trimmed(m)
    ensures Strip(a + m + b) == m
  {
    if m == [] {
      assert a + m + b == (a + b) + [];
      StripStartAfterSpace(a + b, []);
    } else {
      assert a + m + b == a + (m + b);
      StripStartAfterSpace(a, m + b);
      StripEndBeforeSpace(m, b);
    }
  }

  /** A trimmed text is left as it is. */
  lemma StripKeeps(s: string)
    requires Trimmed(s)
    ensures Strip(s) == s
  {
    assert s == [] + s + [];
    StripRecovers([], s, []);
  }

  /** A whitespace-only string strips to "". */
  lemma StripAllSpace(s: string)
    requires AllSpace(s)
    ensures Strip(s) == ""
  {
    assert s == s + [] + [];
    StripRecovers(s, [], []);
  }

  /** `strip()` is idempotent. */
  lemma StripIdempotent(s: string)
    ensures Strip(Strip(s)) == Strip(s)
  {
    var m := Strip(s);
    assert m == [] + m + [];
    StripRecovers([], m, []);
  }

  /** Python's `t in s` for strings. */
  predicate Contains(s: string, t: string) {
    exists i :: 0 <= i <= |s| && OccursAt(s, t, i)
  }

  predicate OccursAt(s: string, t: string, i: nat) {
    i + |t| <= |s| && s[i..i + |t|] == t
  }

  lemma ContainsInside(a: string, t: string, b: string)
    ensures Contains(a + t + b, t)
  {
    var s := a + t + b;
    assert s[|a|..|a| + |t|] == t;
    assert OccursAt(s, t, |a|);
  }

  lemma ContainsWider(s: string, t: string, a: string, b: string)
    requires Contains(s, t)
    ensures Contains(a + s + b, t)
  {
    var i :| 0 <= i <= |s| && OccursAt(s, t, i);
    var w := a + s + b;
    assert w[|a| + i..|a| + i + |t|] == s[i..i + |t|];
    assert OccursAt(w, t, |a| + i);
  }

  /** Python's `s[:n]` for `n >= 0`. */
  function Take(s: string, n: nat): (r: string)
    ensures |r| == if |s| <= n then |s| else n
    ensures r == s[..|r|]
    ensures |s| <= n ==> r == s
  {
    if |s| <= n then s else s[..n]
  }

  /** Python's `str(n)` for a natural number. */
  function NatToString(n: nat): string
    decreases n
  {
    if n < 10 then [Digit(n)] else NatToString(n / 10) + [Digit(n % 10)]
  }

  function Digit(d: nat): char
    requires d < 10
  {
    "0123456789"[d]
  }

  /** A Python value handed back by another library, seen through what this
      code does with it: test its truthiness and call `str()` on it. */
  datatype PyValue =
    | PyNone
    | PyStr(s: string)
    | PyOther(truthy: bool, text: string)   // any other object, with its `str()`

  predicate PyTruthy(v: PyValue) {
    match v
    case PyNone => false
    case PyStr(s) => s != ""
    case PyOther(t, _) => t
  }

  /** Python's `str(v)`. */
  function PyStrOf(v: PyValue): string {
    match v
    case PyNone => "None"
    case PyStr(s) => s
    case PyOther(_, text) => text
  }
}
