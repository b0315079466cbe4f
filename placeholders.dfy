/**
 * The placeholder tokens of a display template (`mm`, `dd`, `yyyy`) and the
 * two ways of filling them in: the sequential `str_replace` the helpers use,
 * and a single left-to-right pass that replaces every token at once.
 */
module Placeholders {
  import opened Strings

  const Tokens: seq<string> := ["mm", "dd", "yyyy"]

  /** `str_replace(['mm', 'dd', 'yyyy'], [month, day, year], template)`. */
  function ReplaceTokens(template: string, month: string, day: string, year: string): (r: string)
    ensures r == Replace(Replace(Replace(template, "mm", month), "dd", day), "yyyy", year)
  {
    var search, values := Tokens, [month, day, year];
    assert search[1..] == ["dd", "yyyy"] && search[1..][1..] == ["yyyy"] && search[1..][1..][1..] == [];
    ReplaceEach(search, values, template)
  }

  /** The template has none of the letters the tokens are made of. */
  predicate TokenFree(s: string)
  {
    forall i :: 0 <= i < |s| ==> s[i] != 'm' && s[i] != 'd' && s[i] != 'y'
  }

  /**
   * Simultaneous substitution: one scan over the template that, at each
   * position, replaces the token starting there and copies any other
   * character as it is.
   */
  function Substitute(template: string, month: string, day: string, year: string): (r: string)
    ensures TokenFree(template) ==> r == template
    decreases |template|
  {
    if template == [] then []
    else if "mm" <= template then
      assert template[0] == 'm';
      month + Substitute(template[2..], month, day, year)
    else if "dd" <= template then
      assert template[0] == 'd';
      day + Substitute(template[2..], month, day, year)
    else if "yyyy" <= template then
      assert template[0] == 'y';
      year + Substitute(template[4..], month, day, year)
    else [template[0]] + Substitute(template[1..], month, day, year)
  }

  /** Characters outside the tokens are kept verbatim, and the pass goes on behind them. */
  lemma {:induction false} SubstituteKeepsLiteral(lit: string, rest: string, month: string, day: string, year: string)
    requires TokenFree(lit)
    ensures Substitute(lit + rest, month, day, year) == lit + Substitute(rest, month, day, year)
    decreases |lit|
  {
    if lit == [] {
      assert lit + rest == rest;
    } else {
      var c, tail := lit[0], lit[1..];
      assert TokenFree(tail) by { assert forall i :: 0 <= i < |tail| ==> tail[i] == lit[i + 1]; }
      assert lit == [c] + tail;
      ConcatAssoc([c], tail, rest);
      SubstituteOther(c, tail + rest, month, day, year);
      SubstituteKeepsLiteral(tail, rest, month, day, year);
      ConcatAssoc([c], tail, Substitute(rest, month, day, year));
    }
  }

  /** A character that starts no token is copied. */
  lemma SubstituteOther(c: char, rest: string, month: string, day: string, year: string)
    requires c != 'm' && c != 'd' && c != 'y'
    ensures Substitute([c] + rest, month, day, year) == [c] + Substitute(rest, month, day, year)
  {
    var s := [c] + rest;
    assert s[0] == c && s[1..] == rest;
  }

  lemma SubstituteMonth(rest: string, month: string, day: string, year: string)
    ensures Substitute("mm" + rest, month, day, year) == month + Substitute(rest, month, day, year)
  {
    assert "mm" <= "mm" + rest && ("mm" + rest)[2..] == rest;
  }

  lemma SubstituteDay(rest: string, month: string, day: string, year: string)
    ensures Substitute("dd" + rest, month, day, year) == day + Substitute(rest, month, day, year)
  {
    assert "dd" <= "dd" + rest && ("dd" + rest)[2..] == rest;
    assert !("mm" <= "dd" + rest) by { assert ("dd" + rest)[0] == 'd'; }
  }

  lemma SubstituteYear(rest: string, month: string, day: string, year: string)
    ensures Substitute("yyyy" + rest, month, day, year) == year + Substitute(rest, month, day, year)
  {
    assert "yyyy" <= "yyyy" + rest && ("yyyy" + rest)[4..] == rest;
    assert ("yyyy" + rest)[0] == 'y';
  }

  /**
   * The sequential replacement equals the simultaneous one as long as no
   * value can take part in a later pass: the month holds no `d` or `y`, the
   * day no `y`, and neither is empty (so no token is formed across a
   * replaced one).
   */
  lemma {:induction false} SequentialIsSimultaneous(template: string, month: string, day: string, year: string)
    requires month != [] && day != []
    requires 'd' !in month && 'y' !in month && 'y' !in day
    ensures ReplaceTokens(template, month, day, year) == Substitute(template, month, day, year)
    decreases |template|
  {
    var t := template;
    if t == [] {
    } else if "mm" <= t {
      var rest := t[2..];
      assert t == "mm" + rest;
      SubstituteMonth(rest, month, day, year);
      ReplaceTokensMonth(rest, month, day, year);
      SequentialIsSimultaneous(rest, month, day, year);
    } else if "dd" <= t {
      var rest := t[2..];
      assert t == "dd" + rest;
      SubstituteDay(rest, month, day, year);
      ReplaceTokensDay(rest, month, day, year);
      SequentialIsSimultaneous(rest, month, day, year);
    } else if "yyyy" <= t {
      var rest := t[4..];
      assert t == "yyyy" + rest;
      SubstituteYear(rest, month, day, year);
      ReplaceTokensYear(rest, month, day, year);
      SequentialIsSimultaneous(rest, month, day, year);
    } else {
      var c, rest := t[0], t[1..];
      assert t == [c] + rest;
      ReplaceTokensOther(c, rest, month, day, year);
      SequentialIsSimultaneous(rest, month, day, year);
    }
  }

  /** The three passes over a template that starts with `mm`: the month is put in and left alone by the later passes. */
  lemma ReplaceTokensMonth(rest: string, month: string, day: string, year: string)
    requires 'd' !in month && 'y' !in month
    ensures ReplaceTokens("mm" + rest, month, day, year) == month + ReplaceTokens(rest, month, day, year)
  {
    assert forall i :: 0 <= i < |month| ==> month[i] != 'd' && month[i] != 'y';
    ReplaceMatch(rest, "mm", month);
    ReplaceSkip(month, Replace(rest, "mm", month), "dd", day);
    ReplaceSkip(month, Replace(Replace(rest, "mm", month), "dd", day), "yyyy", year);
  }

  lemma ReplaceTokensDay(rest: string, month: string, day: string, year: string)
    requires 'y' !in day
    ensures ReplaceTokens("dd" + rest, month, day, year) == day + ReplaceTokens(rest, month, day, year)
  {
    assert forall i :: 0 <= i < |day| ==> day[i] != 'y';
    ReplaceSkip("dd", rest, "mm", month);
    ReplaceMatch(Replace(rest, "mm", month), "dd", day);
    ReplaceSkip(day, Replace(Replace(rest, "mm", month), "dd", day), "yyyy", year);
  }

  lemma ReplaceTokensYear(rest: string, month: string, day: string, year: string)
    ensures ReplaceTokens("yyyy" + rest, month, day, year) == year + ReplaceTokens(rest, month, day, year)
  {
    ReplaceSkip("yyyy", rest, "mm", month);
    ReplaceSkip("yyyy", Replace(rest, "mm", month), "dd", day);
    ReplaceMatch(Replace(Replace(rest, "mm", month), "dd", day), "yyyy", year);
  }

  /**
   * A character that starts no token in the template is copied by all
   * three passes: a token there in a later pass would need letters from the
   * template that the earlier passes left in place.
   */
  lemma ReplaceTokensOther(c: char, rest: string, month: string, day: string, year: string)
    requires month != [] && day != []
    requires 'd' !in month && 'y' !in month && 'y' !in day
    requires !("mm" <= [c] + rest) && !("dd" <= [c] + rest) && !("yyyy" <= [c] + rest)
    ensures ReplaceTokens([c] + rest, month, day, year) == [c] + ReplaceTokens(rest, month, day, year)
    ensures Substitute([c] + rest, month, day, year) == [c] + Substitute(rest, month, day, year)
  {
    var t := [c] + rest;
    assert t[1..] == rest;
    var r1 := Replace(rest, "mm", month);
    var r2 := Replace(r1, "dd", day);
    // Pass 1: no `mm` starts here.
    assert Replace(t, "mm", month) == [c] + r1;
    // Pass 2: a `dd` here would need a `d` at the front of the month pass's output.
    assert Replace([c] + r1, "dd", day) == [c] + r2;
    // Pass 3: a `yyyy` here would need `yyy` at the front of the day pass's output,
    // which only the template could have put there.
    assert Replace([c] + r2, "yyyy", year) == [c] + Replace(r2, "yyyy", year) by {
      if "yyyy" <= [c] + r2 {
        assert StartsWithRun(r2, 'y', 3) by {
          forall i | 0 <= i < 3 ensures r2[i] == 'y' { assert ([c] + r2)[i + 1] == r2[i]; }
        }
        RunBeforeReplace(r1, "dd", day, 'y', 3);
        RunBeforeReplace(rest, "mm", month, 'y', 3);
        assert false;
      }
      assert ([c] + r2)[1..] == r2;
    }
  }

  /** The part of a standard template after its first token: a separator, a token, a separator and the year. */
  lemma {:induction false} TokenThenYear(second: string, sep: char, month: string, day: string, year: string)
    requires second == "mm" || second == "dd"
    requires sep != 'm' && sep != 'd' && sep != 'y'
    ensures Substitute([sep] + (second + ([sep] + "yyyy")), month, day, year)
         == [sep] + ((if second == "mm" then month else day) + ([sep] + year))
  {
    var tail := [sep] + "yyyy";
    SubstituteYear([], month, day, year);
    assert "yyyy" + [] == "yyyy";
    SubstituteKeepsLiteral([sep], "yyyy", month, day, year);
    if second == "mm" { SubstituteMonth(tail, month, day, year); } else { SubstituteDay(tail, month, day, year); }
    SubstituteKeepsLiteral([sep], second + tail, month, day, year);
  }

  lemma {:induction false} TwoTokensAndYear(first: string, second: string, sep: char,
                                            month: string, day: string, year: string)
    requires (first == "mm" && second == "dd") || (first == "dd" && second == "mm")
    requires sep != 'm' && sep != 'd' && sep != 'y'
    ensures Substitute(first + ([sep] + (second + ([sep] + "yyyy"))), month, day, year)
         == (if first == "mm" then month else day) + ([sep]
          + ((if second == "mm" then month else day) + ([sep] + year)))
  {
    var rest := [sep] + (second + ([sep] + "yyyy"));
    TokenThenYear(second, sep, month, day, year);
    if first == "mm" { SubstituteMonth(rest, month, day, year); } else { SubstituteDay(rest, month, day, year); }
  }
}
