/** Message schemas and the recursive checker (pkg/validator/schema.go). */
module SchemaValidator {
  import opened Bytes
  import opened Secs2Item

  datatype Level = Pass | Warn | Fail

  datatype Schema = Schema(
    format: Format, name: string, minLen: int, maxLen: int, children: seq<Schema>, allowed: seq<byte>, optional: bool)

  /** What a finding says; a path lists the child indices from the root. */
  datatype Verdict =
    | Valid
    | Missing
    | WrongFormat(got: Format)
    | TooFew(length: nat)
    | TooMany(length: nat)
    | NotAllowed(value: byte)
  {
    function Severity(): Level {
      match this
      case Valid => Pass
      case Missing => Warn
      case _ => Fail
    }
  }

  datatype Finding = Finding(verdict: Verdict, path: seq<nat>, name: string) {
    function Severity(): Level {
      verdict.Severity()
    }
  }

  // ----- The checker -----

  /** The checks on the node itself, in the order of the code. */
  function Problem(s: Schema, x: Item): (v: Verdict)
    ensures v.Valid? || v.Severity() == Fail
    ensures v.Valid? ==> x.ItemFormat() == s.format
  {
    if x.ItemFormat() != s.format then WrongFormat(x.ItemFormat())
    else if s.minLen > 0 && x.Len() < s.minLen then TooFew(x.Len())
    else if s.maxLen >= 0 && x.Len() > s.maxLen then TooMany(x.Len())
    else if s.format == TextFormat(Binary) && s.allowed != [] && x.Content() != [] && x.Content()[0] !in s.allowed then
      NotAllowed(x.Content()[0])
    else Valid
  }

  /** Each kind of problem is reported where the earlier kinds do not apply, with what was found. */
  lemma ProblemSays(s: Schema, x: Item)
    ensures Problem(s, x) == WrongFormat(x.ItemFormat()) <==> x.ItemFormat() != s.format
    ensures x.ItemFormat() == s.format ==>
              (Problem(s, x) == TooFew(x.Len()) <==> x.Len() < s.minLen)
              && (Problem(s, x) == TooMany(x.Len()) <==> x.Len() >= s.minLen && 0 <= s.maxLen < x.Len())
    ensures Problem(s, x).NotAllowed? ==> x.TextItem? && x.text.Binary? && x.Len() > 0 && Problem(s, x).value == x.Content()[0]
  {
  }

  /** The findings of `validateItem`. */
  function Findings(s: Schema, x: Item, path: seq<nat>): (fs: seq<Finding>)
    ensures fs != []
    decreases s, 1
  {
    if !Problem(s, x).Valid? then [Finding(Problem(s, x), path, s.name)]
    else
      var below := if s.format.ListFormat? then ChildFindings(s.children, x.items, 0, path) else [];
      if below == [] then [Finding(Valid, path, s.name)] else below
  }

  function ChildFindings(ss: seq<Schema>, xs: seq<Item>, i: nat, path: seq<nat>): (fs: seq<Finding>)
    decreases ss, 0
  {
    if ss == [] then []
    else
      var first :=
        if i < |xs| then Findings(ss[0], xs[i], path + [i])
        else if ss[0].optional then [] else [Finding(Missing, path + [i], ss[0].name)];
      first + ChildFindings(ss[1..], xs, i + 1, path)
  }

  /** `validateItem`: early returns on the node, then a loop over the declared children. */
  method ValidateItem(s: Schema, x: Item, path: seq<nat>) returns (results: seq<Finding>)
    ensures results == Findings(s, x, path)
    decreases s
  {
    results := [];
    if x.ItemFormat() != s.format {
      return [Finding(WrongFormat(x.ItemFormat()), path, s.name)];
    }
    var length := x.Len();
    if s.minLen > 0 && length < s.minLen {
      return [Finding(TooFew(length), path, s.name)];
    }
    if s.maxLen >= 0 && length > s.maxLen {
      return [Finding(TooMany(length), path, s.name)];
    }
    if s.format == TextFormat(Binary) && |s.allowed| > 0 {
      var data := x.Content();
      if |data| > 0 {
        var found := false;
        for j := 0 to |s.allowed|
          invariant found <==> data[0] in s.allowed[..j]
        {
          if s.allowed[j] == data[0] {
            found := true;
          }
        }
        assert s.allowed[..|s.allowed|] == s.allowed;
        if !found {
          return [Finding(NotAllowed(data[0]), path, s.name)];
        }
      }
    }
    assert Problem(s, x).Valid?;
    if s.format.ListFormat? && |s.children| > 0 {
      results := ValidateChildren(s, x.items, path);
    }
    if |results| == 0 {
      results := [Finding(Valid, path, s.name)];
    }
  }

  method ValidateChildren(s: Schema, xs: seq<Item>, path: seq<nat>) returns (results: seq<Finding>)
    ensures results == ChildFindings(s.children, xs, 0, path)
    decreases s, 0
  {
    results := [];
    for i := 0 to |s.children|
      invariant results + ChildFindings(s.children[i..], xs, i, path) == ChildFindings(s.children, xs, 0, path)
    {
      var child := s.children[i];
      assert s.children[i..][1..] == s.children[i + 1..];
      ghost var rest := ChildFindings(s.children[i + 1..], xs, i + 1, path);
      if i >= |xs| {
        if !child.optional {
          assert results + ([Finding(Missing, path + [i], child.name)] + rest)
              == results + [Finding(Missing, path + [i], child.name)] + rest;
          results := results + [Finding(Missing, path + [i], child.name)];
        } else {
          assert [] + rest == rest;
        }
        continue;
      }
      var below := ValidateItem(child, xs[i], path + [i]);
      assert results + (below + rest) == results + below + rest;
      results := results + below;
    }
    assert results + [] == results;
  }

  // ----- Severity of a report -----

  function MaxLevel(fs: seq<Finding>): (l: Level) {
    if fs == [] then Pass
    else
      var a, b := fs[0].Severity(), MaxLevel(fs[1..]);
      if a.Fail? || b.Fail? then Fail else if a.Warn? || b.Warn? then Warn else Pass
  }

  function Rank(l: Level): nat {
    match l case Pass => 0 case Warn => 1 case Fail => 2
  }

  /** `MaxLevel` as the loop over the results. */
  method ComputeMaxLevel(fs: seq<Finding>) returns (max: Level)
    ensures max == MaxLevel(fs)
    ensures forall f | f in fs :: Rank(f.Severity()) <= Rank(max)
    ensures max.Pass? || exists f | f in fs :: f.Severity() == max
  {
    max := Pass;
    for i := 0 to |fs|
      invariant forall f | f in fs[..i] :: Rank(f.Severity()) <= Rank(max)
      invariant max.Pass? || exists f | f in fs[..i] :: f.Severity() == max
    {
      assert fs[..i + 1] == fs[..i] + [fs[i]];
      if Rank(fs[i].Severity()) > Rank(max) {
        max := fs[i].Severity();
      }
    }
    assert fs[..|fs|] == fs;
    MaxLevelIs(fs, max);
  }

  lemma {:induction false} MaxLevelIs(fs: seq<Finding>, max: Level)
    requires forall f | f in fs :: Rank(f.Severity()) <= Rank(max)
    requires max.Pass? || exists f | f in fs :: f.Severity() == max
    ensures max == MaxLevel(fs)
  {
    MaxLevelBounds(fs);
  }

  lemma {:induction false} MaxLevelBounds(fs: seq<Finding>)
    ensures forall f | f in fs :: Rank(f.Severity()) <= Rank(MaxLevel(fs))
    ensures MaxLevel(fs).Pass? || exists f | f in fs :: f.Severity() == MaxLevel(fs)
  {
    if fs != [] {
      MaxLevelBounds(fs[1..]);
      assert fs == [fs[0]] + fs[1..];
      if MaxLevel(fs) != Pass && MaxLevel(fs) != fs[0].Severity() {
        var f :| f in fs[1..] && f.Severity() == MaxLevel(fs[1..]);
        assert f in fs;
      }
    }
  }

  lemma {:induction false} MaxLevelOfBoth(fs: seq<Finding>, gs: seq<Finding>)
    ensures MaxLevel(fs + gs).Fail? <==> MaxLevel(fs).Fail? || MaxLevel(gs).Fail?
    ensures MaxLevel(fs + gs).Pass? <==> MaxLevel(fs).Pass? && MaxLevel(gs).Pass?
  {
    if fs == [] {
      assert [] + gs == gs;
    } else {
      MaxLevelOfBoth(fs[1..], gs);
      assert (fs + gs)[1..] == fs[1..] + gs;
    }
  }

  // ----- Conformance, declared -----

  /** The item has the declared format, length and values, and so has every declared child it has. */
  predicate Conforms(s: Schema, x: Item) {
    && x.ItemFormat() == s.format
    && s.minLen <= x.Len() && (s.maxLen < 0 || x.Len() <= s.maxLen)
    && (s.format == TextFormat(Binary) && s.allowed != [] && x.Len() > 0 ==> x.Content()[0] in s.allowed)
    && (s.format.ListFormat? ==>
          forall i | 0 <= i < |s.children| && i < |x.items| :: Conforms(s.children[i], x.items[i]))
  }

  /** No list in the item, as far as the schema reaches, lacks a child that is not optional. */
  predicate Complete(s: Schema, x: Item) {
    x.ListItem? && s.format.ListFormat? ==>
      forall i | 0 <= i < |s.children| ::
        if i < |x.items| then Complete(s.children[i], x.items[i]) else s.children[i].optional
  }

  predicate ChildrenConform(ss: seq<Schema>, xs: seq<Item>, i: nat) {
    forall j | 0 <= j < |ss| && i + j < |xs| :: Conforms(ss[j], xs[i + j])
  }

  predicate ChildrenComplete(ss: seq<Schema>, xs: seq<Item>, i: nat) {
    forall j | 0 <= j < |ss| :: if i + j < |xs| then Complete(ss[j], xs[i + j]) else ss[j].optional
  }

  /** FAIL exactly when the item does not conform; WARN exactly when it conforms but is incomplete. */
  lemma {:induction false} VerdictIsConformance(s: Schema, x: Item, path: seq<nat>)
    ensures MaxLevel(Findings(s, x, path)).Fail? <==> !Conforms(s, x)
    ensures Conforms(s, x) ==> (MaxLevel(Findings(s, x, path)).Pass? <==> Complete(s, x))
    decreases s, 1
  {
    ProblemIsLocal(s, x);
    if Problem(s, x).Valid? && s.format.ListFormat? {
      ChildVerdicts(s.children, x.items, 0, path);
      assert Conforms(s, x) <==> ChildrenConform(s.children, x.items, 0);
      assert Complete(s, x) <==> ChildrenComplete(s.children, x.items, 0);
    }
  }

  lemma ProblemIsLocal(s: Schema, x: Item)
    ensures !Problem(s, x).Valid? ==> !Conforms(s, x)
    ensures Problem(s, x).Valid? && !s.format.ListFormat? ==> Conforms(s, x) && Complete(s, x)
  {
  }

  lemma {:induction false} ChildVerdicts(ss: seq<Schema>, xs: seq<Item>, i: nat, path: seq<nat>)
    ensures MaxLevel(ChildFindings(ss, xs, i, path)).Fail? <==> !ChildrenConform(ss, xs, i)
    ensures ChildrenConform(ss, xs, i) ==>
              (MaxLevel(ChildFindings(ss, xs, i, path)).Pass? <==> ChildrenComplete(ss, xs, i))
    decreases ss, 0
  {
    if ss != [] {
      var first :=
        if i < |xs| then Findings(ss[0], xs[i], path + [i])
        else if ss[0].optional then [] else [Finding(Missing, path + [i], ss[0].name)];
      if i < |xs| {
        VerdictIsConformance(ss[0], xs[i], path + [i]);
      }
      ChildVerdicts(ss[1..], xs, i + 1, path);
      MaxLevelOfBoth(first, ChildFindings(ss[1..], xs, i + 1, path));
      SplitFirst(ss, xs, i);
    }
  }

  lemma SplitFirst(ss: seq<Schema>, xs: seq<Item>, i: nat)
    requires ss != []
    ensures ChildrenConform(ss, xs, i) <==>
            (i < |xs| ==> Conforms(ss[0], xs[i])) && ChildrenConform(ss[1..], xs, i + 1)
    ensures ChildrenComplete(ss, xs, i) <==>
            (if i < |xs| then Complete(ss[0], xs[i]) else ss[0].optional) && ChildrenComplete(ss[1..], xs, i + 1)
  {
  }

  // ----- Where the failures are -----

  /** The node at the relative path breaks its own schema node, and every list above it was in order. */
  predicate Offends(s: Schema, x: Item, rel: seq<nat>)
    decreases rel
  {
    if rel == [] then !Problem(s, x).Valid?
    else
      && Problem(s, x).Valid? && s.format.ListFormat?
      && rel[0] < |s.children| && rel[0] < |x.items|
      && Offends(s.children[rel[0]], x.items[rel[0]], rel[1..])
  }

  /** A FAIL finding at a path is in the report exactly when the node there offends. */
  lemma {:induction false} FailuresAreLocated(s: Schema, x: Item, path: seq<nat>, rel: seq<nat>)
    ensures (exists f | f in Findings(s, x, path) :: f.Severity().Fail? && f.path == path + rel) <==> Offends(s, x, rel)
    decreases s, 1
  {
    var fs := Findings(s, x, path);
    assert path + [] == path;
    if !Problem(s, x).Valid? {
      assert fs[0] in fs && fs[0].path == path;
    } else if s.format.ListFormat? {
      ChildFailuresAreLocated(s.children, x.items, 0, path, rel);
    }
  }

  lemma {:induction false} ChildFailuresAreLocated(ss: seq<Schema>, xs: seq<Item>, i: nat, path: seq<nat>, rel: seq<nat>)
    ensures (exists f | f in ChildFindings(ss, xs, i, path) :: f.Severity().Fail? && f.path == path + rel) <==>
            rel != [] && i <= rel[0] < i + |ss| && rel[0] < |xs| && Offends(ss[rel[0] - i], xs[rel[0]], rel[1..])
    decreases ss, 0
  {
    if ss != [] {
      var rest := ChildFindings(ss[1..], xs, i + 1, path);
      ChildFailuresAreLocated(ss[1..], xs, i + 1, path, rel);
      if i < |xs| {
        var first := Findings(ss[0], xs[i], path + [i]);
        PathsExtend(ss[0], xs[i], path + [i]);
        if rel != [] && rel[0] == i {
          FailuresAreLocated(ss[0], xs[i], path + [i], rel[1..]);
          assert path + [i] + rel[1..] == path + rel;
        } else {
          forall f | f in first ensures f.path != path + rel {
            assert f.path[..|path| + 1] == path + [i];
            assert rel != [] ==> (path + rel)[|path|] == rel[0];
          }
        }
      }
    }
  }

  lemma {:induction false} PathsExtend(s: Schema, x: Item, path: seq<nat>)
    ensures forall f | f in Findings(s, x, path) :: path <= f.path
    decreases s, 1
  {
    if Problem(s, x).Valid? && s.format.ListFormat? {
      ChildPathsExtend(s.children, x.items, 0, path);
    }
  }

  lemma {:induction false} ChildPathsExtend(ss: seq<Schema>, xs: seq<Item>, i: nat, path: seq<nat>)
    ensures forall f | f in ChildFindings(ss, xs, i, path) :: path <= f.path
    decreases ss, 0
  {
    if ss != [] {
      ChildPathsExtend(ss[1..], xs, i + 1, path);
      if i < |xs| {
        PathsExtend(ss[0], xs[i], path + [i]);
      }
    }
  }
}
