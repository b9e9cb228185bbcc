/** The string searches the log reader uses. */
module Text {
  import opened Rust

  predicate OccursAt(s: string, pattern: string, i: nat) {
    i + |pattern| <= |s| && s[i..i + |pattern|] == pattern
  }

  /** The first occurrence at or after position i. */
  function Find(s: string, pattern: string, i: nat): (r: Option<nat>)
    ensures r.Some? ==> i <= r.value && OccursAt(s, pattern, r.value)
    ensures r.Some? ==> forall j :: i <= j < r.value ==> !OccursAt(s, pattern, j)
    ensures r.None? ==> forall j :: i <= j ==> !OccursAt(s, pattern, j)
    decreases |s| - i
  {
    if i + |pattern| > |s| then None
    else if s[i..i + |pattern|] == pattern then Some(i)
    else Find(s, pattern, i + 1)
  }

  predicate Contains(s: string, pattern: string) {
    Find(s, pattern, 0).Some?
  }

  predicate EndsWith(s: string, suffix: string) {
    |suffix| <= |s| && s[|s| - |suffix|..] == suffix
  }

  function StripPrefix(s: string, prefix: string): Option<string> {
    if |prefix| <= |s| && s[..|prefix|] == prefix then Some(s[|prefix|..]) else None
  }

  /** Split around the first occurrence. */
  function SplitOnce(s: string, pattern: string): Option<(string, string)> {
    match Find(s, pattern, 0)
    case Some(i) => Some((s[..i], s[i + |pattern|..]))
    case None => None
  }

  predicate NoSpace(s: string) {
    ' ' !in s
  }

  /** Where a pattern occurs, its characters do. */
  lemma OccursChar(s: string, pattern: string, j: nat, k: nat)
    requires k < |pattern|
    ensures OccursAt(s, pattern, j) ==> j + |pattern| <= |s| && s[j + k] == pattern[k]
  {
    assert OccursAt(s, pattern, j) ==> s[j..j + |pattern|][k] == pattern[k];
  }

  lemma OccursShift(a: string, b: string, pattern: string, j: nat)
    ensures OccursAt(a + b, pattern, |a| + j) == OccursAt(b, pattern, j)
  {
    if |a| + j + |pattern| <= |a + b| {
      assert (a + b)[|a| + j..|a| + j + |pattern|] == b[j..j + |pattern|];
    }
  }

  ghost predicate Absent(s: string, pattern: string) {
    forall j: nat :: !OccursAt(s, pattern, j)
  }

  lemma AbsentNotFound(s: string, pattern: string)
    ensures Absent(s, pattern) <==> !Contains(s, pattern)
    ensures Absent(s, pattern) <==> SplitOnce(s, pattern).None?
  {
  }

  /** A pattern that starts with a space cannot occur inside a word, so the first occurrence in
      `word + pattern + rest` is right after the word. */
  lemma SplitAfterWord(word: string, pattern: string, rest: string)
    requires NoSpace(word) && |pattern| > 0 && pattern[0] == ' '
    ensures SplitOnce(word + pattern + rest, pattern) == Some((word, rest))
  {
    var s := word + pattern + rest;
    assert s[|word|..|word| + |pattern|] == pattern;
    assert OccursAt(s, pattern, |word|);
    assert forall j :: 0 <= j < |word| ==> s[j] == word[j];
    forall j: nat | j < |word|
      ensures !OccursAt(s, pattern, j)
    {
      OccursChar(s, pattern, j, 0);
    }
    assert Find(s, pattern, 0) == Some(|word|);
    assert s[..|word|] == word && s[|word| + |pattern|..] == rest;
  }

  lemma AbsentAfterWord(word: string, tail: string, pattern: string)
    requires NoSpace(word) && |pattern| > 0 && pattern[0] == ' '
    ensures Absent(word + tail, pattern) <==> Absent(tail, pattern)
  {
    hide OccursAt;
    forall j: nat
      ensures OccursAt(word + tail, pattern, |word| + j) == OccursAt(tail, pattern, j)
    {
      OccursShift(word, tail, pattern, j);
    }
    var s := word + tail;
    assert forall j :: 0 <= j < |word| ==> s[j] == word[j];
    forall j: nat | OccursAt(s, pattern, j)
      ensures j >= |word| && OccursAt(tail, pattern, j - |word|)
    {
      OccursChar(s, pattern, j, 0);
      assert j >= |word|;
      OccursShift(word, tail, pattern, j - |word|);
    }
  }

  /** The same for the end of the text. */
  lemma EndsAfterWord(word: string, tail: string, suffix: string)
    requires NoSpace(word) && |suffix| > 0 && suffix[0] == ' '
    ensures EndsWith(word + tail, suffix) <==> EndsWith(tail, suffix)
  {
    var s := word + tail;
    assert forall j :: 0 <= j < |word| ==> s[j] == word[j];
    if |suffix| <= |tail| {
      assert s[|s| - |suffix|..] == tail[|tail| - |suffix|..];
    } else if |suffix| <= |s| {
      assert s[|s| - |suffix|..][0] == word[|s| - |suffix|];
    }
  }
}
