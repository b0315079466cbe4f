/** The two PHP string functions the helpers rely on: `str_replace` and `explode`. */
module Strings {

  /** Regrouping a concatenation, stated once so that callers need not argue it element by element. */
  lemma ConcatAssoc(a: string, b: string, c: string)
    ensures (a + b) + c == a + (b + c)
  {
  }

  /**
   * `str_replace(pat, rep, s)` with one needle: the occurrences of pat that a
   * left-to-right scan finds, never overlapping, are replaced by rep; text
   * that was put in by a replacement is not scanned again.
   */
  function Replace(s: string, pat: string, rep: string): (r: string)
    requires pat != []
    ensures (forall i :: 0 <= i < |s| ==> s[i] != pat[0]) ==> r == s
    decreases |s|
  {
    if s == [] then []
    else if pat <= s then rep + Replace(s[|pat|..], pat, rep)
    else [s[0]] + Replace(s[1..], pat, rep)
  }

  /** A part that no occurrence of the needle can start in is copied and the scan goes on behind it. */
  lemma {:induction false} ReplaceSkip(a: string, x: string, pat: string, rep: string)
    requires pat != []
    requires forall i :: 0 <= i < |a| ==> a[i] != pat[0]
    ensures Replace(a + x, pat, rep) == a + Replace(x, pat, rep)
    decreases |a|
  {
    if a == [] {
      assert a + x == x;
    } else {
      var c, t := a[0], a[1..];
      assert forall i :: 0 <= i < |t| ==> t[i] == a[i + 1];
      ReplaceSkip(t, x, pat, rep);
      assert !(pat <= a + x) by { assert (a + x)[0] == c && pat[0] != c; }
      assert (a + x)[1..] == t + x;
      assert a == [c] + t;
      ConcatAssoc([c], t, Replace(x, pat, rep));
    }
  }

  /** An occurrence at the front is replaced and the scan goes on behind it. */
  lemma ReplaceMatch(x: string, pat: string, rep: string)
    requires pat != []
    ensures Replace(pat + x, pat, rep) == rep + Replace(x, pat, rep)
  {
    assert pat <= pat + x;
    assert (pat + x)[|pat|..] == x;
  }

  /** s begins with k copies of c. */
  predicate StartsWithRun(s: string, c: char, k: nat)
  {
    k <= |s| && forall i :: 0 <= i < k ==> s[i] == c
  }

  /**
   * A run of c at the front of a replacement's output was already at the
   * front of its input, when the replacement text holds no c.
   */
  lemma {:induction false} RunBeforeReplace(s: string, pat: string, rep: string, c: char, k: nat)
    requires pat != [] && rep != [] && c !in rep
    requires StartsWithRun(Replace(s, pat, rep), c, k)
    ensures StartsWithRun(s, c, k)
    decreases k
  {
    if k > 0 {
      var r := Replace(s, pat, rep);
      assert s != [];
      assert rep[0] != c by { assert rep[0] in rep; }
      assert r[0] == c;
      if pat <= s {
        assert false;
      }
      assert r == [s[0]] + Replace(s[1..], pat, rep);
      assert StartsWithRun(Replace(s[1..], pat, rep), c, k - 1) by {
        forall i | 0 <= i < k - 1 ensures Replace(s[1..], pat, rep)[i] == c {
          assert r[i + 1] == c;
        }
      }
      RunBeforeReplace(s[1..], pat, rep, c, k - 1);
      forall i | 0 <= i < k ensures s[i] == c {
        if i > 0 { assert s[i] == s[1..][i - 1]; } else { assert r[0] == s[0]; }
      }
    }
  }

  /**
   * `str_replace(search, replace, s)` with arrays: each needle in turn, each
   * pass running over the output of the one before.
   */
  function ReplaceEach(search: seq<string>, replace: seq<string>, s: string): (r: string)
    requires |search| == |replace|
    requires forall i :: 0 <= i < |search| ==> search[i] != []
    ensures (forall i, j :: 0 <= i < |search| && 0 <= j < |s| ==> s[j] != search[i][0]) ==> r == s
    decreases |search|
  {
    if search == [] then s
    else ReplaceEach(search[1..], replace[1..], Replace(s, search[0], replace[0]))
  }

  /** Gluing fields back together with the separator between them (`implode`). */
  function Join(parts: seq<string>, sep: char): string
  {
    if |parts| == 0 then []
    else if |parts| == 1 then parts[0]
    else parts[0] + [sep] + Join(parts[1..], sep)
  }

  /**
   * `explode(sep, s)`: the fields between the separators, always at least one
   * (the empty string gives one empty field).
   */
  function Split(s: string, sep: char): (parts: seq<string>)
    ensures |parts| >= 1
    ensures forall i :: 0 <= i < |parts| ==> sep !in parts[i]
    ensures Join(parts, sep) == s
    decreases |s|
  {
    if s == [] then [[]]
    else
      var rest := Split(s[1..], sep);
      if s[0] == sep then
        var parts := [[]] + rest;
        assert parts[1..] == rest;
        assert s == [sep] + s[1..];
        parts
      else
        var parts := [[s[0]] + rest[0]] + rest[1..];
        assert parts[1..] == rest[1..];
        assert s == [s[0]] + s[1..];
        parts
  }

  /** There is a second field exactly when the separator occurs. */
  lemma SplitHasSecondField(s: string, sep: char)
    ensures |Split(s, sep)| >= 2 <==> sep in s
  {
    var parts := Split(s, sep);
    if |parts| >= 2 {
      assert s == parts[0] + [sep] + Join(parts[1..], sep);
      assert s[|parts[0]|] == sep;
    }
  }

  /** A leading field ends at the first separator. */
  lemma {:induction false} SplitFirstField(a: string, sep: char, b: string)
    requires sep !in a
    ensures Split(a + [sep] + b, sep) == [a] + Split(b, sep)
    decreases |a|
  {
    var s := a + [sep] + b;
    if a == [] {
      assert s[1..] == b;
    } else {
      assert s[1..] == a[1..] + [sep] + b;
      SplitFirstField(a[1..], sep, b);
      assert [s[0]] + a[1..] == a;
    }
  }
}
