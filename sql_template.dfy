/**
 * The tagged-template query compiler, the `template.reduce(...)` in `_createQuery` and
 * `_createQueryArray` (src/common/core/database/postgresql/_module-factory.ts) and in
 * `_query` (src/common/core/database/modules/_postgresql.ts); the three copies are the
 * same code. A value whose preceding part ends with `$` becomes a numbered placeholder
 * `$1`, `$2`, ... and is pushed to the parameter list; any other value is spliced into the
 * text by `text`, the `${value}` conversion, which is left abstract.
 */
module SqlTemplates {
  import JsValues

  /** The characters above U+00FF that `\s` matches. */
  const WideSpaces: set<char> := {
    '\U{1680}', '\U{2000}', '\U{2001}', '\U{2002}', '\U{2003}', '\U{2004}', '\U{2005}',
    '\U{2006}', '\U{2007}', '\U{2008}', '\U{2009}', '\U{200A}', '\U{2028}', '\U{2029}',
    '\U{202F}', '\U{205F}', '\U{3000}', '\U{FEFF}' }

  /** `\s` in a JavaScript regular expression: tab to carriage return, space, U+00A0 and the wide spaces. */
  predicate IsSpace(c: char) {
    ('\t' <= c <= '\r') || c == ' ' || c == '\U{00A0}' || c in WideSpaces
  }

  predicate AllSpace(s: string) {
    forall i :: 0 <= i < |s| ==> IsSpace(s[i])
  }

  /** Removes the leading run of whitespace. */
  function TrimStart(s: string): (r: string)
    ensures |r| <= |s|
  {
    if s != [] && IsSpace(s[0]) then TrimStart(s[1..]) else s
  }

  /** Removes the trailing run of whitespace. */
  function TrimEnd(s: string): (r: string)
    ensures |r| <= |s|
  {
    if s != [] && IsSpace(s[|s| - 1]) then TrimEnd(s[..|s| - 1]) else s
  }

  /** `.replace(/\s+/g, ' ')`: every maximal run of whitespace becomes one space. */
  function Collapse(s: string): string
    decreases |s|
  {
    if s == [] then []
    else if IsSpace(s[0]) then [' '] + Collapse(TrimStart(s[1..]))
    else [s[0]] + Collapse(s[1..])
  }

  /** `part.replace(/^\s+|\s+$/g, '').replace(/\s+/g, ' ')` */
  function Lint(part: string): string {
    Collapse(TrimEnd(TrimStart(part)))
  }

  /** `TrimStart` drops exactly a leading run of whitespace. */
  lemma {:induction false} TrimStartFacts(s: string)
    ensures var r := TrimStart(s);
      && r == s[|s| - |r|..]
      && (r != [] ==> !IsSpace(r[0]))
      && (forall i :: 0 <= i < |s| - |r| ==> IsSpace(s[i]))
    decreases |s|
  {
    if s != [] && IsSpace(s[0]) {
      TrimStartFacts(s[1..]);
      var r := TrimStart(s[1..]);
      assert forall i :: 0 < i < |s| - |r| ==> s[i] == s[1..][i - 1];
    }
  }

  /** `TrimEnd` drops exactly a trailing run of whitespace. */
  lemma {:induction false} TrimEndFacts(s: string)
    ensures var r := TrimEnd(s);
      && r == s[..|r|]
      && (r != [] ==> !IsSpace(r[|r| - 1]))
      && (forall i :: |r| <= i < |s| ==> IsSpace(s[i]))
    decreases |s|
  {
    if s != [] && IsSpace(s[|s| - 1]) {
      TrimEndFacts(s[..|s| - 1]);
    }
  }

  /**
   * The only whitespace `Collapse` leaves is single spaces, and its result starts (ends)
   * with a space exactly when the input starts (ends) with whitespace.
   */
  lemma CollapseFacts(s: string)
    ensures var r := Collapse(s);
      && (forall i :: 0 <= i < |r| && IsSpace(r[i]) ==> r[i] == ' ')
      && (forall i :: 0 <= i < |r| - 1 ==> !(r[i] == ' ' && r[i + 1] == ' '))
      && ((r != [] && r[0] == ' ') <==> (s != [] && IsSpace(s[0])))
      && ((r != [] && r[|r| - 1] == ' ') <==> (s != [] && IsSpace(s[|s| - 1])))
      && (r == [] <==> s == [])
  {
    CollapseEnds(s);
    CollapseSpaces(s);
  }

  /** The ends of a collapsed string: a space exactly where the input has whitespace. */
  lemma {:induction false} CollapseEnds(s: string)
    ensures var r := Collapse(s);
      && ((r != [] && r[0] == ' ') <==> (s != [] && IsSpace(s[0])))
      && ((r != [] && r[|r| - 1] == ' ') <==> (s != [] && IsSpace(s[|s| - 1])))
      && (r == [] <==> s == [])
    decreases |s|
  {
    if s != [] {
      if IsSpace(s[0]) {
        var rest := TrimStart(s[1..]);
        TrimStartFacts(s[1..]);
        CollapseEnds(rest);
        if rest == [] {
          assert IsSpace(s[|s| - 1]) by {
            if |s| > 1 {
              assert s[|s| - 1] == s[1..][|s| - 2];
            }
          }
        } else {
          assert rest[|rest| - 1] == s[|s| - 1];
          var t := Collapse(rest);
          assert Collapse(s) == [' '] + t;
          assert ([' '] + t)[|t|] == t[|t| - 1];
        }
      } else {
        CollapseEnds(s[1..]);
        var t := Collapse(s[1..]);
        assert Collapse(s) == [s[0]] + t;
        if t != [] {
          assert ([s[0]] + t)[|t|] == t[|t| - 1];
          assert s[|s| - 1] == s[1..][|s| - 2];
        }
      }
    }
  }

  /** The only whitespace in `r` is single spaces. */
  predicate SingleSpaced(r: string) {
    && (forall i :: 0 <= i < |r| && IsSpace(r[i]) ==> r[i] == ' ')
    && (forall i :: 0 <= i < |r| - 1 ==> !(r[i] == ' ' && r[i + 1] == ' '))
  }

  /** Inside a collapsed string, whitespace is single spaces. */
  lemma {:induction false} CollapseSpaces(s: string)
    ensures SingleSpaced(Collapse(s))
    decreases |s|
  {
    if s != [] {
      if IsSpace(s[0]) {
        var rest := TrimStart(s[1..]);
        TrimStartFacts(s[1..]);
        CollapseSpaces(rest);
        CollapseEnds(rest);
      } else {
        CollapseSpaces(s[1..]);
        var t := Collapse(s[1..]);
        var r := [s[0]] + t;
        assert Collapse(s) == r;
        assert IsSpace(' ');
        forall i | 0 <= i < |r| && IsSpace(r[i])
          ensures r[i] == ' '
        {
          assert r[i] == t[i - 1];
        }
        forall i | 0 <= i < |r| - 1
          ensures !(r[i] == ' ' && r[i + 1] == ' ')
        {
          if i > 0 {
            assert r[i] == t[i - 1] && r[i + 1] == t[i];
          }
        }
      }
    }
  }

  /**
   * A linted part has no whitespace at either end and single spaces inside, and it is
   * empty exactly when the part is blank.
   */
  lemma LintFacts(part: string)
    ensures var r := Lint(part);
      && (forall i :: 0 <= i < |r| && IsSpace(r[i]) ==> r[i] == ' ')
      && (forall i :: 0 <= i < |r| - 1 ==> !(r[i] == ' ' && r[i + 1] == ' '))
      && (r != [] ==> r[0] != ' ' && r[|r| - 1] != ' ')
      && (r == [] <==> AllSpace(part))
  {
    var u := TrimStart(part);
    var t := TrimEnd(u);
    TrimStartFacts(part);
    TrimEndFacts(u);
    CollapseFacts(t);
    if t != [] {
      assert t[0] == u[0];
    }
  }

  /** `part.endsWith('$')` */
  predicate EndsWithDollar(part: string) {
    |part| > 0 && part[|part| - 1] == '$'
  }

  /** The accumulator `[queryText, queryParams]`. */
  datatype Query<V> = Query(text: string, params: seq<V>)

  /** What the reducer pushes for part `i`: the value behind it when the part ends with `$`. */
  function Pushed<V>(part: string, i: nat, values: seq<V>): seq<V> {
    if i < |values| && EndsWithDollar(part) then [values[i]] else []
  }

  /** `queryParams` after the reducer has seen the first `n` parts. */
  function Placeholders<V>(parts: seq<string>, values: seq<V>, n: nat): seq<V>
    requires n <= |parts|
  {
    if n == 0 then [] else Placeholders(parts, values, n - 1) + Pushed(parts[n - 1], n - 1, values)
  }

  /**
   * `queryText` after the reducer has seen the first `n` parts: each part adds its lint,
   * followed by the running parameter count when the part ends with `$`, or by the value's
   * text otherwise; a part with no value behind it adds its lint only when that is not empty.
   */
  function QueryText<V>(parts: seq<string>, values: seq<V>, text: V -> string, n: nat): string
    requires n <= |parts|
  {
    if n == 0 then ""
    else QueryText(parts, values, text, n - 1) + Piece(parts, values, text, n - 1)
  }

  /** How many of the first `n` parts are followed by a value and end with `$`. */
  function DollarCount<V>(parts: seq<string>, values: seq<V>, n: nat): nat
    requires n <= |parts|
  {
    if n == 0 then 0
    else DollarCount(parts, values, n - 1) + if n - 1 < |values| && EndsWithDollar(parts[n - 1]) then 1 else 0
  }

  /** The text a part followed by value `i` contributes when it is placeholder number `k`. */
  function PieceAt<V>(part: string, i: nat, values: seq<V>, text: V -> string, k: nat): string {
    var lint := Lint(part);
    if i >= |values| then (if lint == "" then "" else " " + lint)
    else if EndsWithDollar(part) then " " + lint + JsValues.NatString(k)
    else " " + lint + " " + text(values[i])
  }

  /** The text part `i` contributes, written with the placeholder number it is given. */
  function Piece<V>(parts: seq<string>, values: seq<V>, text: V -> string, i: nat): string
    requires i < |parts|
  {
    PieceAt(parts[i], i, values, text, DollarCount(parts, values, i + 1))
  }

  lemma {:induction false} DollarCountMonotone<V>(parts: seq<string>, values: seq<V>, m: nat, n: nat)
    requires m <= n <= |parts|
    ensures DollarCount(parts, values, m) <= DollarCount(parts, values, n)
    ensures DollarCount(parts, values, n) <= n && DollarCount(parts, values, n) <= |values|
    decreases n
  {
    if n > 0 {
      if m < n {
        DollarCountMonotone(parts, values, m, n - 1);
      } else {
        DollarCountMonotone(parts, values, m - 1, n - 1);
      }
    }
  }

  /** There are as many parameters as `$`-terminated parts followed by a value. */
  lemma {:induction false} ParamCount<V>(parts: seq<string>, values: seq<V>, n: nat)
    requires n <= |parts|
    ensures |Placeholders(parts, values, n)| == DollarCount(parts, values, n)
    decreases n
  {
    if n > 0 {
      ParamCount(parts, values, n - 1);
    }
  }

  /** The value after a `$`-terminated part `i` is parameter number `DollarCount(i + 1)`. */
  lemma {:induction false} ParamAt<V>(parts: seq<string>, values: seq<V>, n: nat, i: nat)
    requires i < n <= |parts| && i < |values| && EndsWithDollar(parts[i])
    ensures var p := Placeholders(parts, values, n);
      0 < DollarCount(parts, values, i + 1) <= |p| && p[DollarCount(parts, values, i + 1) - 1] == values[i]
    decreases n
  {
    var p' := Placeholders(parts, values, n - 1);
    ParamCount(parts, values, n - 1);
    if i < n - 1 {
      ParamAt(parts, values, n - 1, i);
    }
  }

  /** Every parameter is the value after some `$`-terminated part: the one returned. */
  lemma {:induction false} ParamSource<V>(parts: seq<string>, values: seq<V>, n: nat, k: nat) returns (i: nat)
    requires n <= |parts| && k < |Placeholders(parts, values, n)|
    ensures i < n && i < |values| && EndsWithDollar(parts[i])
    ensures DollarCount(parts, values, i + 1) == k + 1
    ensures Placeholders(parts, values, n)[k] == values[i]
    decreases n
  {
    var p' := Placeholders(parts, values, n - 1);
    ParamCount(parts, values, n - 1);
    if k < |p'| {
      i := ParamSource(parts, values, n - 1, k);
    } else {
      i := n - 1;
    }
  }

  /** The running placeholder count the reducer sees at part `i` is the one `Piece` uses. */
  lemma PieceAgrees<V>(parts: seq<string>, values: seq<V>, text: V -> string, i: nat)
    requires i < |parts|
    ensures PieceAt(parts[i], i, values, text, |Placeholders(parts, values, i)| + 1) == Piece(parts, values, text, i)
  {
    ParamCount(parts, values, i);
    var running := |Placeholders(parts, values, i)| + 1;
    if i < |values| && EndsWithDollar(parts[i]) {
      assert running == DollarCount(parts, values, i + 1);
    } else {
      PieceIgnoresCount(parts[i], i, values, text, running, DollarCount(parts, values, i + 1));
    }
  }

  /** Only a `$`-terminated part followed by a value writes its placeholder number. */
  lemma PieceIgnoresCount<V>(part: string, i: nat, values: seq<V>, text: V -> string, k1: nat, k2: nat)
    requires !(i < |values| && EndsWithDollar(part))
    ensures PieceAt(part, i, values, text, k1) == PieceAt(part, i, values, text, k2)
  {
  }

  /** A blank part with no value behind it contributes nothing. */
  lemma BlankPiece<V>(part: string, i: nat, values: seq<V>, text: V -> string, k: nat)
    requires i >= |values| && AllSpace(part)
    ensures PieceAt(part, i, values, text, k) == ""
    ensures Pushed(part, i, values) == []
  {
    LintFacts(part);
  }

  /** The piece of a blank final part is empty. */
  lemma TrailingPieceEmpty<V>(parts: seq<string>, values: seq<V>, text: V -> string)
    requires |parts| == |values| + 1 && AllSpace(parts[|values|])
    ensures Piece(parts, values, text, |values|) == ""
  {
    BlankPiece(parts[|values|], |values|, values, text, DollarCount(parts, values, |values| + 1));
  }

  /** A part whose piece is empty adds nothing to the text. */
  lemma EmptyPieceAddsNoText<V>(parts: seq<string>, values: seq<V>, text: V -> string, n: nat)
    requires n < |parts| && Piece(parts, values, text, n) == ""
    ensures QueryText(parts, values, text, n + 1) == QueryText(parts, values, text, n)
  {
    var before := QueryText(parts, values, text, n);
    assert before + "" == before;
  }

  /** A part with no value behind it pushes no parameter. */
  lemma NoValueNoParam<V>(parts: seq<string>, values: seq<V>, n: nat)
    requires |values| <= n < |parts|
    ensures Placeholders(parts, values, n + 1) == Placeholders(parts, values, n)
  {
    var pushed := Placeholders(parts, values, n);
    assert pushed + [] == pushed;
  }

  /** A final part that is blank adds nothing to the text. */
  lemma TrailingBlankAddsNothing<V>(parts: seq<string>, values: seq<V>, text: V -> string)
    requires |parts| == |values| + 1 && AllSpace(parts[|values|])
    ensures QueryText(parts, values, text, |values| + 1) == QueryText(parts, values, text, |values|)
    ensures Placeholders(parts, values, |values| + 1) == Placeholders(parts, values, |values|)
  {
    TrailingPieceEmpty(parts, values, text);
    EmptyPieceAddsNoText(parts, values, text, |values|);
    NoValueNoParam(parts, values, |values|);
  }

  /**
   * The reducer: given the accumulator and part `index`, it appends the part's piece to
   * the text and, for a `$`-terminated part with a value behind it, pushes that value.
   */
  method Reduce<V>(queryText: string, queryParams: seq<V>, part: string, index: nat, values: seq<V>, text: V -> string)
    returns (nextText: string, nextParams: seq<V>)
    ensures nextText == queryText + PieceAt(part, index, values, text, |queryParams| + 1)
    ensures nextParams == queryParams + Pushed(part, index, values)
  {
    var lint := Lint(part);
    nextText, nextParams := queryText, queryParams;
    if index < |values| {
      if EndsWithDollar(part) {
        nextParams := nextParams + [values[index]];
        nextText := nextText + (" " + lint + JsValues.NatString(|nextParams|));
      } else {
        nextText := nextText + (" " + lint + " " + text(values[index]));
        assert nextParams + [] == nextParams;
      }
    } else {
      if lint != "" {
        nextText := nextText + (" " + lint);
      } else {
        assert nextText + "" == nextText;
      }
      assert nextParams + [] == nextParams;
    }
  }

  /** One more part: the accumulator grows by that part's piece and pushed value. */
  lemma ReduceStep<V>(parts: seq<string>, values: seq<V>, text: V -> string, i: nat)
    requires i < |parts|
    ensures QueryText(parts, values, text, i + 1)
         == QueryText(parts, values, text, i) + PieceAt(parts[i], i, values, text, |Placeholders(parts, values, i)| + 1)
    ensures Placeholders(parts, values, i + 1) == Placeholders(parts, values, i) + Pushed(parts[i], i, values)
  {
    PieceAgrees(parts, values, text, i);
  }

  /** `template.reduce(reducer, ['', []])` */
  method Compile<V>(parts: seq<string>, values: seq<V>, text: V -> string) returns (q: Query<V>)
    ensures q == Query(QueryText(parts, values, text, |parts|), Placeholders(parts, values, |parts|))
    ensures |q.params| == DollarCount(parts, values, |parts|) <= |values|
    ensures forall i :: 0 <= i < |parts| && i < |values| && EndsWithDollar(parts[i]) ==>
      0 < DollarCount(parts, values, i + 1) <= |q.params| && q.params[DollarCount(parts, values, i + 1) - 1] == values[i]
  {
    var queryText := "";
    var queryParams: seq<V> := [];
    var i := 0;
    while i < |parts|
      invariant 0 <= i <= |parts|
      invariant queryText == QueryText(parts, values, text, i)
      invariant queryParams == Placeholders(parts, values, i)
    {
      queryText, queryParams := Reduce(queryText, queryParams, parts[i], i, values, text);
      ReduceStep(parts, values, text, i);
      i := i + 1;
    }
    q := Query(queryText, queryParams);
    ParamFacts(parts, values);
  }

  /**
   * There is one parameter per `$`-terminated part with a value behind it, and its value
   * is the one whose piece is written with its number.
   */
  lemma ParamFacts<V>(parts: seq<string>, values: seq<V>)
    ensures |Placeholders(parts, values, |parts|)| == DollarCount(parts, values, |parts|) <= |values|
    ensures var p := Placeholders(parts, values, |parts|);
      forall i :: 0 <= i < |parts| && i < |values| && EndsWithDollar(parts[i]) ==>
        0 < DollarCount(parts, values, i + 1) <= |p| && p[DollarCount(parts, values, i + 1) - 1] == values[i]
  {
    ParamCount(parts, values, |parts|);
    DollarCountMonotone(parts, values, |parts|, |parts|);
    forall i | 0 <= i < |parts| && i < |values| && EndsWithDollar(parts[i])
      ensures var p := Placeholders(parts, values, |parts|);
        0 < DollarCount(parts, values, i + 1) <= |p| && p[DollarCount(parts, values, i + 1) - 1] == values[i]
    {
      ParamAt(parts, values, |parts|, i);
    }
  }
}
