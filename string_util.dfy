/**
 * `StringUtilStatic.resolvePath` of src/common/utils/data-utility/_string.ts: the path
 * normaliser the controller decorators and the route table use.
 *
 * The source is one expression chain: drop falsy arguments, turn every backslash into a
 * slash, join with '/', collapse every run of two or more slashes into one, prepend a
 * slash if there is none, and drop one trailing slash.
 */
module StringUtil {
  import opened Wrappers

  /** An argument of type `string | undefined`. */
  type PathArg = Option<string>

  /** `!!path`: the argument is defined and not the empty string. */
  predicate Truthy(a: PathArg) {
    a.Some? && a.value != ""
  }

  /** `.filter((path) => !!path)` */
  function Present(paths: seq<PathArg>): (r: seq<string>)
    ensures |r| <= |paths|
  {
    if paths == [] then []
    else (if Truthy(paths[0]) then [paths[0].value] else []) + Present(paths[1..])
  }

  /** `path.replace(/\\/g, '/')` */
  function ToSlashes(s: string): (r: string)
    ensures |r| == |s|
    ensures forall i :: 0 <= i < |s| ==> r[i] == (if s[i] == '\\' then '/' else s[i])
  {
    seq(|s|, i requires 0 <= i < |s| => if s[i] == '\\' then '/' else s[i])
  }

  /** `.map((path) => path.replace(/\\/g, '/'))` */
  function MapSlashes(ps: seq<string>): (r: seq<string>)
    ensures |r| == |ps|
  {
    if ps == [] then [] else [ToSlashes(ps[0])] + MapSlashes(ps[1..])
  }

  /** `.join('/')` */
  function Join(ps: seq<string>): string {
    if |ps| == 0 then ""
    else if |ps| == 1 then ps[0]
    else ps[0] + "/" + Join(ps[1..])
  }

  /** `.replace(/\/{2,}/g, '/')`: every maximal run of slashes becomes one slash. */
  function Collapse(s: string): string
    decreases |s|
  {
    if |s| < 2 then s
    else if s[0] == '/' && s[1] == '/' then Collapse(s[1..])
    else [s[0]] + Collapse(s[1..])
  }

  /** `if (!path.startsWith('/')) path = '/' + path` */
  function Lead(c: string): (r: string)
    ensures |r| > 0 && r[0] == '/'
  {
    if |c| > 0 && c[0] == '/' then c else "/" + c
  }

  /** `if (path.endsWith('/')) path = path.slice(0, -1)` */
  function DropSlash(p: string): string {
    if |p| > 0 && p[|p| - 1] == '/' then p[..|p| - 1] else p
  }

  /** The two conditional reassignments after collapsing. */
  function Finish(c: string): string {
    DropSlash(Lead(c))
  }

  predicate NoDoubleSlash(s: string) {
    forall i :: 0 <= i < |s| - 1 ==> !(s[i] == '/' && s[i + 1] == '/')
  }

  predicate NoBackslash(s: string) {
    forall i :: 0 <= i < |s| ==> s[i] != '\\'
  }

  predicate AllSlashes(s: string) {
    forall i :: 0 <= i < |s| ==> s[i] == '/'
  }

  /** An argument that carries no path segment: undefined, or only separators. */
  predicate OnlySeparators(a: PathArg) {
    a.None? || forall i :: 0 <= i < |a.value| ==> a.value[i] == '/' || a.value[i] == '\\'
  }

  /** The normal form `resolvePath` produces: `''`, or a slash-led path with no `//` and no trailing `/`. */
  predicate Normal(s: string) {
    && NoBackslash(s)
    && NoDoubleSlash(s)
    && (s == "" || (s[0] == '/' && s[|s| - 1] != '/'))
  }

  /** The joined string before slash collapsing. */
  function Joined(paths: seq<PathArg>): string {
    Join(MapSlashes(Present(paths)))
  }

  /**
   * `resolvePath(...paths)`. The result is in normal form, and it is `''` exactly when
   * every argument is undefined, empty, or made only of slashes and backslashes.
   */
  function ResolvePath(paths: seq<PathArg>): (r: string)
    ensures Normal(r)
    ensures r == "" <==> forall i :: 0 <= i < |paths| ==> OnlySeparators(paths[i])
  {
    var j := Joined(paths);
    JoinedFacts(paths);
    CollapseFacts(j);
    FinishFacts(Collapse(j));
    Finish(Collapse(j))
  }

  // ---------------------------------------------------------------- Collapse

  /** Gluing two collapsed strings: a slash on both sides of the seam is kept once. */
  function Glue(a: string, b: string): string {
    if |a| > 0 && |b| > 0 && a[|a| - 1] == '/' && b[0] == '/' then a + b[1..] else a + b
  }

  lemma CollapseFacts(s: string)
    ensures NoDoubleSlash(Collapse(s))
    ensures |Collapse(s)| <= |s|
    ensures (|Collapse(s)| == 0) == (|s| == 0)
    ensures |s| > 0 ==> Collapse(s)[0] == s[0] && Collapse(s)[|Collapse(s)| - 1] == s[|s| - 1]
    ensures NoBackslash(s) ==> NoBackslash(Collapse(s))
    ensures AllSlashes(Collapse(s)) == AllSlashes(s)
  {
    CollapseShape(s);
    CollapseKeeps(s);
  }

  /** Collapsing leaves no `//`, never lengthens, and keeps the first and last character. */
  lemma {:induction false} CollapseShape(s: string)
    ensures NoDoubleSlash(Collapse(s))
    ensures |Collapse(s)| <= |s|
    ensures (|Collapse(s)| == 0) == (|s| == 0)
    ensures |s| > 0 ==> Collapse(s)[0] == s[0] && Collapse(s)[|Collapse(s)| - 1] == s[|s| - 1]
    decreases |s|
  {
    if |s| < 2 {
    } else if s[0] == '/' && s[1] == '/' {
      CollapseShape(s[1..]);
    } else {
      var t := Collapse(s[1..]);
      CollapseShape(s[1..]);
      var r := [s[0]] + t;
      assert Collapse(s) == r;
      assert t[0] == s[1];
      forall i | 0 <= i < |r| - 1
        ensures !(r[i] == '/' && r[i + 1] == '/')
      {
        if i > 0 {
          assert r[i] == t[i - 1] && r[i + 1] == t[i];
        }
      }
    }
  }

  /** Collapsing keeps a string free of backslashes, and made only of slashes or not. */
  lemma {:induction false} CollapseKeeps(s: string)
    ensures NoBackslash(s) ==> NoBackslash(Collapse(s))
    ensures AllSlashes(Collapse(s)) == AllSlashes(s)
    decreases |s|
  {
    if |s| >= 2 {
      CollapseKeeps(s[1..]);
      var t := Collapse(s[1..]);
      assert AllSlashes(s) == (s[0] == '/' && AllSlashes(s[1..])) by {
        if s[0] == '/' && AllSlashes(s[1..]) {
          forall i | 0 < i < |s| ensures s[i] == '/' { assert s[i] == s[1..][i - 1]; }
        }
      }
      assert NoBackslash(s) ==> NoBackslash(s[1..]) by {
        if NoBackslash(s) {
          forall i | 0 <= i < |s[1..]| ensures s[1..][i] != '\\' { assert s[1..][i] == s[i + 1]; }
        }
      }
      if !(s[0] == '/' && s[1] == '/') {
        var r := [s[0]] + t;
        assert Collapse(s) == r;
        assert AllSlashes(r) == (s[0] == '/' && AllSlashes(t)) by {
          if AllSlashes(r) {
            assert r[0] == s[0];
            forall i | 0 <= i < |t| ensures t[i] == '/' { assert t[i] == r[i + 1]; }
          }
        }
        assert NoBackslash(s) ==> NoBackslash(r) by {
          if NoBackslash(s) && NoBackslash(t) {
            forall i | 0 < i < |r| ensures r[i] != '\\' { assert r[i] == t[i - 1]; }
          }
        }
      }
    }
  }

  /** A string already free of `//` is left alone by the collapsing step. */
  lemma {:induction false} CollapseFixed(s: string)
    requires NoDoubleSlash(s)
    ensures Collapse(s) == s
    decreases |s|
  {
    if |s| >= 2 {
      assert NoDoubleSlash(s[1..]) by {
        forall i | 0 <= i < |s[1..]| - 1 ensures !(s[1..][i] == '/' && s[1..][i + 1] == '/') {
          assert s[1..][i] == s[i + 1] && s[1..][i + 1] == s[i + 2];
        }
      }
      CollapseFixed(s[1..]);
    }
  }

  /** A non-empty run of slashes collapses to a single slash. */
  lemma {:induction false} CollapseSlashes(s: string)
    requires |s| > 0 && AllSlashes(s)
    ensures Collapse(s) == "/"
    decreases |s|
  {
    if |s| >= 2 {
      CollapseSlashes(s[1..]);
    }
  }

  /** One step of collapsing: a slash before a slash-led rest is dropped, anything else kept. */
  lemma CollapseCons(c: char, s: string)
    ensures Collapse([c] + s) == if |s| > 0 && c == '/' && s[0] == '/' then Collapse(s) else [c] + Collapse(s)
  {
    assert ([c] + s)[1..] == s;
  }

  /** Gluing after a non-empty string does not reach its first character. */
  lemma GlueCons(c: char, a: string, b: string)
    requires |a| > 0
    ensures Glue([c] + a, b) == [c] + Glue(a, b)
  {
    if |b| > 0 && a[|a| - 1] == '/' && b[0] == '/' {
      assert ([c] + a) + b[1..] == [c] + (a + b[1..]);
    } else {
      assert ([c] + a) + b == [c] + (a + b);
    }
  }

  /** A slash glued before a slash-led string adds nothing. */
  lemma GlueSlash(b: string)
    requires |b| > 0 && b[0] == '/'
    ensures Glue("/", b) == b
  {
    assert "/" + b[1..] == b;
  }

  /** Collapsing one character followed by a string glues it to the collapsed string. */
  lemma CollapseConsGlue(c: char, y: string)
    ensures Collapse([c] + y) == Glue([c], Collapse(y))
  {
    CollapseCons(c, y);
    CollapseShape(y);
    if |y| > 0 && c == '/' && y[0] == '/' {
      GlueSlash(Collapse(y));
    }
  }

  /** Collapsing distributes over concatenation, up to the seam. */
  lemma {:induction false} CollapseConcat(x: string, y: string)
    ensures Collapse(x + y) == Glue(Collapse(x), Collapse(y))
    decreases |x|
  {
    if |x| == 0 {
      assert x + y == y;
    } else {
      var c, x' := x[0], x[1..];
      assert x == [c] + x';
      assert x + y == [c] + (x' + y);
      if |x'| == 0 {
        assert x' + y == y;
        CollapseConsGlue(c, y);
      } else {
        CollapseConcat(x', y);
        CollapseCons(c, x' + y);
        CollapseCons(c, x');
        assert (x' + y)[0] == x'[0];
        if !(c == '/' && x'[0] == '/') {
          CollapseShape(x');
          GlueCons(c, Collapse(x'), Collapse(y));
        }
      }
    }
  }

  // ---------------------------------------------------------------- Finish

  lemma FinishFacts(c: string)
    requires NoDoubleSlash(c) && NoBackslash(c)
    ensures Normal(Finish(c))
    ensures (Finish(c) == "") == AllSlashes(c)
  {
    LeadFacts(c);
    DropSlashFacts(Lead(c));
  }

  /** Putting a slash in front keeps the string clean and does not change whether it is all slashes. */
  lemma LeadFacts(c: string)
    requires NoDoubleSlash(c) && NoBackslash(c)
    ensures NoDoubleSlash(Lead(c)) && NoBackslash(Lead(c))
    ensures AllSlashes(Lead(c)) == AllSlashes(c)
  {
    if !(|c| > 0 && c[0] == '/') {
      var p := "/" + c;
      assert Lead(c) == p;
      assert forall i :: 0 < i < |p| ==> p[i] == c[i - 1];
      forall i | 0 <= i < |p| - 1 ensures !(p[i] == '/' && p[i + 1] == '/') {
        if i > 0 { assert p[i] == c[i - 1] && p[i + 1] == c[i]; }
      }
      if AllSlashes(p) {
        forall i | 0 <= i < |c| ensures c[i] == '/' { assert c[i] == p[i + 1]; }
      }
    }
  }

  /** Dropping one trailing slash of a clean string that starts with a slash leaves it in normal form. */
  lemma DropSlashFacts(p: string)
    requires |p| > 0 && p[0] == '/' && NoDoubleSlash(p) && NoBackslash(p)
    ensures Normal(DropSlash(p))
    ensures (DropSlash(p) == "") == AllSlashes(p)
  {
    var r := DropSlash(p);
    if p[|p| - 1] == '/' {
      assert r == p[..|p| - 1];
      if |p| >= 2 {
        assert r[|r| - 1] == p[|p| - 2];
        assert p[|p| - 2] != '/';
        assert !AllSlashes(p);
      } else {
        assert AllSlashes(p);
      }
    } else {
      assert !AllSlashes(p);
    }
  }

  // ---------------------------------------------------------------- joining

  lemma {:induction false} JoinedFacts(paths: seq<PathArg>)
    ensures NoBackslash(Joined(paths))
    ensures AllSlashes(Joined(paths)) == forall i :: 0 <= i < |paths| ==> OnlySeparators(paths[i])
    ensures Present(paths) != [] ==> Joined(paths) != ""
    decreases |paths|
  {
    if paths != [] {
      JoinedFacts(paths[1..]);
      var rest := Present(paths[1..]);
      assert Present(paths) == (if Truthy(paths[0]) then [paths[0].value] else []) + rest;
      if Truthy(paths[0]) {
        var h := ToSlashes(paths[0].value);
        assert MapSlashes(Present(paths)) == [h] + MapSlashes(rest);
        assert AllSlashes(h) == OnlySeparators(paths[0]);
        if rest == [] {
          assert Joined(paths) == h;
          assert forall i :: 1 <= i < |paths| ==> OnlySeparators(paths[i]) by {
            JoinedNone(paths[1..]);
            forall i | 1 <= i < |paths| ensures OnlySeparators(paths[i]) { assert paths[1..][i - 1] == paths[i]; }
          }
        } else {
          var t := Joined(paths[1..]);
          assert Joined(paths) == h + "/" + t;
          ConcatSlashes(h, t);
        }
      } else {
        assert Present(paths) == rest;
        assert Joined(paths) == Joined(paths[1..]);
      }
      SeparatorsSplit(paths);
    }
  }

  /** Splits the quantifier over `paths` into its head and its tail. */
  lemma SeparatorsSplit(paths: seq<PathArg>)
    requires paths != []
    ensures (forall i :: 0 <= i < |paths| ==> OnlySeparators(paths[i]))
        == (OnlySeparators(paths[0]) && forall i :: 0 <= i < |paths[1..]| ==> OnlySeparators(paths[1..][i]))
  {
    if OnlySeparators(paths[0]) && forall i :: 0 <= i < |paths[1..]| ==> OnlySeparators(paths[1..][i]) {
      forall i | 0 <= i < |paths| ensures OnlySeparators(paths[i]) {
        if i > 0 { assert paths[i] == paths[1..][i - 1]; }
      }
    }
  }

  /** With nothing present, every argument only holds separators. */
  lemma {:induction false} JoinedNone(paths: seq<PathArg>)
    requires Present(paths) == []
    ensures forall i :: 0 <= i < |paths| ==> OnlySeparators(paths[i])
    decreases |paths|
  {
    if paths != [] {
      assert !Truthy(paths[0]) && Present(paths[1..]) == [];
      JoinedNone(paths[1..]);
      SeparatorsSplit(paths);
    }
  }

  lemma ConcatSlashes(h: string, t: string)
    ensures NoBackslash(h) && NoBackslash(t) ==> NoBackslash(h + "/" + t)
    ensures AllSlashes(h + "/" + t) == (AllSlashes(h) && AllSlashes(t))
  {
    var s := h + "/" + t;
    assert forall i :: 0 <= i < |h| ==> s[i] == h[i];
    assert forall i :: 0 <= i < |t| ==> s[|h| + 1 + i] == t[i];
    if NoBackslash(h) && NoBackslash(t) {
      forall i | 0 <= i < |s| ensures s[i] != '\\' {
        if i > |h| { assert s[i] == t[i - |h| - 1]; }
      }
    }
    if AllSlashes(h) && AllSlashes(t) {
      forall i | 0 <= i < |s| ensures s[i] == '/' {
        if i > |h| { assert s[i] == t[i - |h| - 1]; }
      }
    }
  }

  lemma {:induction false} PresentConcat(a: seq<PathArg>, b: seq<PathArg>)
    ensures Present(a + b) == Present(a) + Present(b)
    decreases |a|
  {
    if a == [] {
      assert a + b == b;
    } else {
      var head := if Truthy(a[0]) then [a[0].value] else [];
      assert (a + b)[0] == a[0];
      assert (a + b)[1..] == a[1..] + b;
      PresentConcat(a[1..], b);
      assert Present(a + b) == head + Present(a[1..] + b);
      assert Present(a) == head + Present(a[1..]);
      assert head + (Present(a[1..]) + Present(b)) == (head + Present(a[1..])) + Present(b);
    }
  }

  lemma {:induction false} MapSlashesConcat(a: seq<string>, b: seq<string>)
    ensures MapSlashes(a + b) == MapSlashes(a) + MapSlashes(b)
    decreases |a|
  {
    if a == [] {
      assert a + b == b;
    } else {
      assert (a + b)[1..] == a[1..] + b;
      MapSlashesConcat(a[1..], b);
    }
  }

  lemma {:induction false} JoinConcat(a: seq<string>, b: seq<string>)
    requires a != [] && b != []
    ensures Join(a + b) == Join(a) + "/" + Join(b)
    decreases |a|
  {
    if |a| == 1 {
      assert (a + b)[1..] == b;
    } else {
      assert (a + b)[1..] == a[1..] + b;
      JoinConcat(a[1..], b);
    }
  }

  /** Joined strings of two argument lists, concatenated. */
  lemma JoinedConcat(xs: seq<PathArg>, ys: seq<PathArg>)
    ensures Present(xs) == [] ==> Joined(xs + ys) == Joined(ys)
    ensures Present(ys) == [] ==> Joined(xs + ys) == Joined(xs)
    ensures Present(xs) != [] && Present(ys) != [] ==> Joined(xs + ys) == Joined(xs) + "/" + Joined(ys)
  {
    PresentConcat(xs, ys);
    MapSlashesConcat(Present(xs), Present(ys));
    if Present(xs) != [] && Present(ys) != [] {
      JoinConcat(MapSlashes(Present(xs)), MapSlashes(Present(ys)));
    }
    if Present(xs) == [] {
      assert Present(xs + ys) == Present(ys);
    }
    if Present(ys) == [] {
      assert Present(xs + ys) == Present(xs);
    }
  }

  // ---------------------------------------------------------------- properties

  /** Undefined and empty arguments are ignored wherever they stand. */
  lemma IgnoresFalsy(xs: seq<PathArg>, a: PathArg, ys: seq<PathArg>)
    requires !Truthy(a)
    ensures ResolvePath(xs + [a] + ys) == ResolvePath(xs + ys)
  {
    PresentConcat(xs + [a], ys);
    PresentConcat(xs, [a]);
    PresentConcat(xs, ys);
    assert [a][1..] == [];
    assert Present([a]) == [];
    assert Present(xs + [a] + ys) == Present(xs + ys);
  }

  /** Turning backslashes into slashes beforehand changes nothing. */
  lemma {:induction false} BackslashesAreSlashes(paths: seq<PathArg>)
    ensures ResolvePath(SlashArgs(paths)) == ResolvePath(paths)
    decreases |paths|
  {
    if paths != [] {
      BackslashesAreSlashes(paths[1..]);
      assert SlashArgs(paths) == [SlashArg(paths[0])] + SlashArgs(paths[1..]);
      PresentConcat([SlashArg(paths[0])], SlashArgs(paths[1..]));
      PresentConcat([paths[0]], paths[1..]);
      assert [paths[0]] + paths[1..] == paths;
      SlashesPreserved(paths[1..]);
      if Truthy(paths[0]) {
        var s := paths[0].value;
        assert ToSlashes(ToSlashes(s)) == ToSlashes(s);
      }
      assert MapSlashes(Present(SlashArgs(paths))) == MapSlashes(Present(paths)) by {
        MapSlashesConcat(Present([SlashArg(paths[0])]), Present(SlashArgs(paths[1..])));
        MapSlashesConcat(Present([paths[0]]), Present(paths[1..]));
      }
    }
  }

  function SlashArg(a: PathArg): PathArg {
    if a.Some? then Some(ToSlashes(a.value)) else None
  }

  function SlashArgs(paths: seq<PathArg>): seq<PathArg>
    ensures |SlashArgs(paths)| == |paths|
  {
    if paths == [] then [] else [SlashArg(paths[0])] + SlashArgs(paths[1..])
  }

  lemma {:induction false} SlashesPreserved(paths: seq<PathArg>)
    ensures MapSlashes(Present(SlashArgs(paths))) == MapSlashes(Present(paths))
    decreases |paths|
  {
    if paths != [] {
      SlashesPreserved(paths[1..]);
      if Truthy(paths[0]) {
        var s := paths[0].value;
        assert ToSlashes(ToSlashes(s)) == ToSlashes(s);
      }
      assert Present(SlashArgs(paths)) == Present([SlashArg(paths[0])]) + Present(SlashArgs(paths[1..])) by {
        PresentConcat([SlashArg(paths[0])], SlashArgs(paths[1..]));
      }
      assert Present(paths) == Present([paths[0]]) + Present(paths[1..]) by {
        PresentConcat([paths[0]], paths[1..]);
        assert [paths[0]] + paths[1..] == paths;
      }
      MapSlashesConcat(Present([SlashArg(paths[0])]), Present(SlashArgs(paths[1..])));
      MapSlashesConcat(Present([paths[0]]), Present(paths[1..]));
    }
  }

  /** A path already in normal form is its own resolution. */
  lemma NormalFixed(r: string)
    requires Normal(r)
    ensures ResolvePath([Some(r)]) == r
  {
    if r != "" {
      var rs: seq<PathArg> := [Some(r)];
      assert rs[1..] == [];
      assert Present(rs) == [r];
      assert ToSlashes(r) == r;
      assert MapSlashes([r]) == [r] by { assert [r][1..] == []; }
      assert Joined(rs) == r;
      CollapseFixed(r);
    }
  }

  /** Idempotence: `resolvePath(resolvePath(xs…)) == resolvePath(xs…)`. */
  lemma Idempotent(paths: seq<PathArg>)
    ensures ResolvePath([Some(ResolvePath(paths))]) == ResolvePath(paths)
  {
    NormalFixed(ResolvePath(paths));
  }

  /**
   * Composition: resolving a resolved prefix together with further arguments gives the
   * same path as resolving all arguments at once.
   */
  lemma Compose(xs: seq<PathArg>, ys: seq<PathArg>)
    ensures ResolvePath([Some(ResolvePath(xs))] + ys) == ResolvePath(xs + ys)
  {
    var r := ResolvePath(xs);
    var head: seq<PathArg> := [Some(r)];
    JoinedConcat(head, ys);
    JoinedConcat(xs, ys);
    JoinedFacts(xs);
    JoinedFacts(ys);
    if Present(ys) == [] {
      NormalFixed(r);
    } else if Present(xs) == [] {
      assert Joined(xs) == "";
      assert r == "";
      assert Present(head) == [];
    } else if r == "" {
      assert Present(head) == [];
      SlashesThenPath(Joined(xs), Joined(ys));
    } else {
      assert Present(head) == [r];
      assert ToSlashes(r) == r;
      assert Joined(head) == r;
      ResolvedThenPath(Joined(xs), Joined(ys));
    }
  }

  lemma LeadTwice(x: string)
    ensures Lead(Lead(x)) == Lead(x)
  {
  }

  /** Adding the leading slash before or after appending a slash-led tail agrees. */
  lemma LeadConcat(x: string, t: string)
    requires x != ""
    ensures Lead(Lead(x) + t) == Lead(x + t)
  {
    if x[0] != '/' {
      assert (x + t)[0] == x[0];
      assert Lead(x) + t == "/" + (x + t);
    } else {
      assert (x + t)[0] == '/';
    }
  }

  /** Gluing a collapsed tail after a slash keeps exactly one slash at the seam. */
  lemma GlueAfterSlash(x: string, k: string)
    requires k != ""
    ensures Glue(x + "/", k) == x + Lead(k)
  {
    var xs := x + "/";
    assert xs[|xs| - 1] == '/';
    if k[0] == '/' {
      assert k == "/" + k[1..];
      assert xs + k[1..] == x + k;
    } else {
      assert xs + k == x + ("/" + k);
    }
  }

  /** Collapsing a string followed by one slash. */
  lemma CollapseThenSlash(a: string)
    ensures Collapse(a + "/") == DropSlash(Collapse(a)) + "/"
  {
    CollapseConcat(a, "/");
    var k := Collapse(a);
    if |k| > 0 && k[|k| - 1] == '/' {
      assert k == k[..|k| - 1] + "/";
    }
  }

  /** A non-empty resolved path followed by one slash is already collapsed. */
  lemma NormalThenSlash(r: string)
    requires Normal(r) && r != ""
    ensures Collapse(r + "/") == r + "/"
  {
    var s := r + "/";
    assert NoDoubleSlash(s) by {
      forall i | 0 <= i < |s| - 1 ensures !(s[i] == '/' && s[i + 1] == '/') {
        assert s[i] == r[i];
        if i < |r| - 1 { assert s[i + 1] == r[i + 1]; }
      }
    }
    CollapseFixed(s);
  }

  /** Prefix whose collapsed form ends in a slash, followed by more text. */
  lemma CollapseAfterSlash(y: string, x: string, c: string)
    requires Collapse(y) == x + "/" && c != ""
    ensures Collapse(y + c) == x + Lead(Collapse(c))
  {
    CollapseConcat(y, c);
    CollapseFacts(c);
    GlueAfterSlash(x, Collapse(c));
  }

  /** A prefix made only of slashes contributes nothing once finished. */
  lemma SlashesThenPath(a: string, c: string)
    requires c != ""
    requires Finish(Collapse(a)) == "" && NoBackslash(a)
    ensures Finish(Collapse(a + "/" + c)) == Finish(Collapse(c))
  {
    CollapseFacts(a);
    FinishFacts(Collapse(a));
    assert AllSlashes(a + "/") by { ConcatSlashes(a, ""); assert a + "/" + "" == a + "/"; }
    CollapseSlashes(a + "/");
    assert Collapse(a + "/") == "" + "/";
    CollapseAfterSlash(a + "/", "", c);
    assert "" + Lead(Collapse(c)) == Lead(Collapse(c));
    LeadTwice(Collapse(c));
  }

  /** The finished form of a collapsed string, read off its slash-free end. */
  lemma FinishIsLeadDrop(k: string)
    requires NoDoubleSlash(k) && Finish(k) != ""
    ensures DropSlash(k) != "" && Finish(k) == Lead(DropSlash(k))
  {
    if |k| > 0 && k[0] == '/' {
      if |k| >= 2 { assert k[1] != '/'; }
    } else if |k| > 0 && k[|k| - 1] == '/' {
      assert ("/" + k)[..|k|] == "/" + k[..|k| - 1];
    }
  }

  /** A prefix that resolves to a non-empty path may be replaced by that path. */
  lemma ResolvedThenPath(a: string, c: string)
    requires c != "" && NoBackslash(a) && NoBackslash(c)
    requires Finish(Collapse(a)) != ""
    ensures Finish(Collapse(Finish(Collapse(a)) + "/" + c)) == Finish(Collapse(a + "/" + c))
  {
    var k := Collapse(a);
    CollapseFacts(a);
    FinishFacts(k);
    var r := Finish(k);
    var k0 := DropSlash(k);
    FinishIsLeadDrop(k);
    CollapseThenSlash(a);
    CollapseAfterSlash(a + "/", k0, c);
    NormalThenSlash(r);
    CollapseAfterSlash(r + "/", r, c);
    var t := Lead(Collapse(c));
    assert Finish(r + t) == DropSlash(Lead(Lead(k0) + t));
    LeadConcat(k0, t);
  }
}
