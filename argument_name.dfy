/** The `name` argument of the package's console commands: the raw argument is
    cast to a string and passed through PHP's `trim`, which removes the
    characters " ", "\t", "\n", "\r", "\0" and "\x0B" from both ends. */
module ArgumentName {

  /** The value `argument('name')` hands back: absent (PHP `null`) or a string. */
  datatype Argument = Null | Text(value: string)

  /** PHP's default `trim` character list. */
  predicate IsTrimChar(c: char) {
    c == ' ' || c == '\t' || c == '\n' || c == '\r' || c == '\0' || c == '\U{000B}'
  }

  /** `s[i..j]` holds only trim characters. */
  predicate TrimOnly(s: string, i: nat, j: nat)
    requires j <= |s|
  {
    forall m :: i <= m < j ==> IsTrimChar(s[m])
  }

  /** Every character of `s` is a trim character. */
  predicate AllTrim(s: string) {
    TrimOnly(s, 0, |s|)
  }

  /** No trim character at either end. */
  predicate Trimmed(s: string) {
    s == [] || (!IsTrimChar(s[0]) && !IsTrimChar(s[|s| - 1]))
  }

  /** PHP's `(string)` cast: `null` becomes the empty string. */
  function AsString(arg: Argument): string {
    match arg
    case Null => []
    case Text(v) => v
  }

  /** The forward scan of `trim`: from `i`, skip trim characters. The result
      is the first index at or after `i` that holds a non-trim character, or
      `|s|` when there is none. */
  function SkipLeading(s: string, i: nat): (j: nat)
    requires i <= |s|
    ensures i <= j <= |s| && TrimOnly(s, i, j)
    ensures j == |s| || !IsTrimChar(s[j])
    decreases |s| - i
  {
    if i < |s| && IsTrimChar(s[i]) then SkipLeading(s, i + 1) else i
  }

  /** The backward scan of `trim`: from `j`, step back over trim characters
      but never below `lo`. The result is one past the last non-trim
      character of `s[lo..j]`, or `lo` when there is none. */
  function SkipTrailing(s: string, lo: nat, j: nat): (e: nat)
    requires lo <= j <= |s|
    ensures lo <= e <= j && TrimOnly(s, e, j)
    ensures e == lo || !IsTrimChar(s[e - 1])
    decreases j
  {
    if lo < j && IsTrimChar(s[j - 1]) then SkipTrailing(s, lo, j - 1) else j
  }

  /** PHP's `trim` with its default character list: the left end is scanned
      first, then the right end, down to where the left scan stopped. The
      result is the infix of `s` left after cutting a prefix and a suffix made
      only of trim characters, and it has no trim character at either end. */
  function Trim(s: string): (r: string)
    ensures Trimmed(r)
    ensures var k := SkipLeading(s, 0);
      k + |r| <= |s| && r == s[k..k + |r|] &&
      TrimOnly(s, 0, k) && TrimOnly(s, k + |r|, |s|)
  {
    var k := SkipLeading(s, 0);
    s[k..SkipTrailing(s, k, |s|)]
  }

  /** `Argumentable::argumentName`: cast the argument to a string, then trim
      it. The name is the cast argument with a trim-only prefix and a
      trim-only suffix cut off, and it has no trim character at either end;
      an absent argument gives the empty name. */
  function ArgumentName(arg: Argument): (r: string)
    ensures Trimmed(r)
    ensures var s := AsString(arg); var k := SkipLeading(s, 0);
      k + |r| <= |s| && r == s[k..k + |r|] &&
      TrimOnly(s, 0, k) && TrimOnly(s, k + |r|, |s|)
    ensures arg.Null? ==> r == []
  {
    Trim(AsString(arg))
  }

  /** The forward scan is determined by what it stops at: a stretch of trim
      characters ending at a non-trim character or at the end. */
  lemma LeadingStopsAt(s: string, i: nat, j: nat)
    requires i <= j <= |s| && TrimOnly(s, i, j)
    requires j == |s| || !IsTrimChar(s[j])
    ensures SkipLeading(s, i) == j
  {
  }

  /** The backward scan is determined by what it stops at, likewise. */
  lemma TrailingStopsAt(s: string, lo: nat, j: nat, e: nat)
    requires lo <= e <= j <= |s| && TrimOnly(s, e, j)
    requires e == lo || !IsTrimChar(s[e - 1])
    ensures SkipTrailing(s, lo, j) == e
  {
  }

  /** Trim is characterised by its result alone: whenever `s` splits into a
      prefix and a suffix of trim characters around a middle part with no
      trim character at either end, `Trim(s)` is that middle part. */
  lemma TrimUnique(s: string, p: string, m: string, q: string)
    requires s == p + m + q && AllTrim(p) && AllTrim(q) && Trimmed(m)
    ensures Trim(s) == m
  {
    var k, e := |p|, |p| + |m|;
    assert forall i :: 0 <= i < k ==> s[i] == p[i];
    assert forall i :: e <= i < |s| ==> s[i] == q[i - e];
    if m == [] {
      LeadingStopsAt(s, 0, |s|);
    } else {
      assert s[k] == m[0] && s[e - 1] == m[|m| - 1];
      LeadingStopsAt(s, 0, k);
      TrailingStopsAt(s, k, |s|, e);
      assert s[k..e] == m;
    }
  }

  /** Trimming a trimmed string changes nothing. */
  lemma TrimIdempotent(s: string)
    ensures Trim(Trim(s)) == Trim(s)
  {
    TrimKeepsTrimmed(Trim(s));
  }

  /** A string with no trim character at either end comes back unchanged. */
  lemma TrimKeepsTrimmed(s: string)
    requires Trimmed(s)
    ensures Trim(s) == s
  {
    assert s == [] + s + [];
    TrimUnique(s, [], s, []);
  }

  /** A string made only of trim characters trims to the empty string. */
  lemma TrimAllTrim(s: string)
    requires AllTrim(s)
    ensures Trim(s) == []
  {
    assert s == s + [] + [];
    TrimUnique(s, s, [], []);
  }

  /** `part` occurs in `r` starting at index `at`. */
  predicate OccursAt(part: string, r: string, at: int) {
    0 <= at && at + |part| <= |r| && r[at..at + |part|] == part
  }

  /** Everything from the first to the last non-trim character is kept as
      it is, trim characters in between included: the stretch `s[a..b + 1]`
      between two non-trim characters occurs whole in `Trim(s)`, shifted
      left by the length of the cut prefix. */
  lemma TrimKeepsInterior(s: string, a: nat, b: nat)
    requires a <= b < |s| && !IsTrimChar(s[a]) && !IsTrimChar(s[b])
    ensures OccursAt(s[a..b + 1], Trim(s), a - SkipLeading(s, 0))
  {
    var k := SkipLeading(s, 0);
    InteriorOfFrame(s, k, SkipTrailing(s, k, |s|), Trim(s), a, b);
  }

  /** A stretch between two non-trim characters cannot reach into a
      trim-only frame, so it lies inside the framed infix `r == s[k..e]`. */
  lemma InteriorOfFrame(s: string, k: nat, e: nat, r: string, a: nat, b: nat)
    requires k <= e <= |s| && r == s[k..e] && TrimOnly(s, 0, k) && TrimOnly(s, e, |s|)
    requires a <= b < |s| && !IsTrimChar(s[a]) && !IsTrimChar(s[b])
    ensures OccursAt(s[a..b + 1], r, a - k)
  {
    assert k <= a && b < e;
    assert forall i :: a - k <= i < b + 1 - k ==> r[i] == s[k + i];
    assert r[a - k..b + 1 - k] == s[a..b + 1];
  }

  /** `argumentName` of an absent argument, or of one made only of trim
      characters, is the empty string; of an already trimmed one, the value. */
  lemma ArgumentNameCases(arg: Argument)
    ensures arg.Null? ==> ArgumentName(arg) == []
    ensures arg.Text? && AllTrim(arg.value) ==> ArgumentName(arg) == []
    ensures arg.Text? && Trimmed(arg.value) ==> ArgumentName(arg) == arg.value
  {
    if arg.Text? {
      if AllTrim(arg.value) {
        TrimAllTrim(arg.value);
      }
      if Trimmed(arg.value) {
        TrimKeepsTrimmed(arg.value);
      }
    }
  }
}
