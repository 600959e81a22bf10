/**
 * Path templates such as "/photos/{id}" and the substitution the generated builder
 * applies to them (`applyPathSubstituions`): for each bound key, every "{key}" in the
 * template is replaced by the bound value with strings.Replace.
 *
 * The substitution itself works on arbitrary strings. To say what it means, a
 * well-formed template is also viewed as a sequence of segments, brace-free literal text
 * and "{key}" holes; on such templates with brace-free keys and values the result does
 * not depend on the order in which the keys are visited.
 */
module PathTemplate {
  import opened Wrappers
  import Strs

  /** The placeholder "{key}" the generated code searches for. */
  function Braced(key: string): (p: string)
    ensures |p| == |key| + 2 && p[0] == '{' && p[|p| - 1] == '}'
    ensures p[1..|p| - 1] == key
  {
    "{" + key + "}"
  }

  /**
   * Applies the bindings `subs` to `api`, visiting their keys in `order` (the order in
   * which Go's map iteration happened to deliver them).
   */
  function SubstituteInOrder(api: string, subs: map<string, string>, order: seq<string>): string
    requires forall k :: k in order ==> k in subs
    decreases |order|
  {
    if order == [] then api
    else
      var k := order[|order| - 1];
      Strs.ReplaceAll(SubstituteInOrder(api, subs, order[..|order| - 1]), Braced(k), subs[k])
  }

  /** One more key visited: its placeholders are replaced in the result so far. */
  lemma {:induction false} SubstituteSnoc(api: string, subs: map<string, string>, order: seq<string>, k: string)
    requires forall j :: j in order ==> j in subs
    requires k in subs
    ensures SubstituteInOrder(api, subs, order + [k])
         == Strs.ReplaceAll(SubstituteInOrder(api, subs, order), Braced(k), subs[k])
  {
    assert (order + [k])[..|order|] == order;
  }

  predicate BraceFree(s: string)
  {
    Strs.Lacks(s, '{') && Strs.Lacks(s, '}')
  }

  datatype Segment = Lit(text: string) | Hole(key: string)

  function Text(t: Segment): string
  {
    match t
    case Lit(x) => x
    case Hole(k) => Braced(k)
  }

  /** The template a sequence of segments spells. */
  function Render(ts: seq<Segment>): string
    decreases |ts|
  {
    if ts == [] then "" else Text(ts[0]) + Render(ts[1..])
  }

  predicate WellFormedSegment(t: Segment)
  {
    match t
    case Lit(x) => BraceFree(x)
    case Hole(k) => BraceFree(k)
  }

  predicate WellFormed(ts: seq<Segment>)
  {
    forall i :: 0 <= i < |ts| ==> WellFormedSegment(ts[i])
  }

  /** Fills the hole of `t` when its key is one of `keys`. */
  function Resolve(t: Segment, subs: map<string, string>, keys: set<string>): Segment
    requires keys <= subs.Keys
  {
    match t
    case Hole(k) => if k in keys then Lit(subs[k]) else t
    case Lit(_) => t
  }

  /** Fills every hole whose key is one of `keys`, leaving the rest of the template alone. */
  function ResolveAll(ts: seq<Segment>, subs: map<string, string>, keys: set<string>): (r: seq<Segment>)
    requires keys <= subs.Keys
  {
    seq(|ts|, i requires 0 <= i < |ts| => Resolve(ts[i], subs, keys))
  }

  /** The meaning of a fully applied substitution: every bound hole filled. */
  function Expand(ts: seq<Segment>, subs: map<string, string>): seq<Segment>
  {
    ResolveAll(ts, subs, subs.Keys)
  }

  // ---- Rendering and strings.Replace -------------------------------------------

  lemma {:induction false} RenderConcat(xs: seq<Segment>, ys: seq<Segment>)
    ensures Render(xs + ys) == Render(xs) + Render(ys)
    decreases |xs|
  {
    if xs == [] {
      assert xs + ys == ys;
    } else {
      assert (xs + ys)[1..] == xs[1..] + ys;
      RenderConcat(xs[1..], ys);
    }
  }

  lemma {:induction false} RenderAt(ts: seq<Segment>, i: nat)
    requires i < |ts|
    ensures Render(ts) == Render(ts[..i]) + Text(ts[i]) + Render(ts[i + 1..])
  {
    var rest := [ts[i]] + ts[i + 1..];
    assert ts == ts[..i] + rest;
    RenderConcat(ts[..i], rest);
    RenderCons(ts[i], ts[i + 1..]);
  }

  lemma {:induction false} RenderCons(t: Segment, ts: seq<Segment>)
    ensures Render([t] + ts) == Text(t) + Render(ts)
  {
    assert ([t] + ts)[1..] == ts;
  }

  /** What a string that starts with "{a}" holds in its first |a| + 2 characters. */
  lemma {:induction false} PlaceholderChars(s: string, a: string)
    requires Strs.StartsWith(s, Braced(a))
    ensures s[|a| + 1] == '}'
    ensures forall j :: 0 <= j < |a| ==> s[j + 1] == a[j]
  {
    var p := Braced(a);
    assert s[..|p|] == p;
    assert s[|a| + 1] == s[..|p|][|a| + 1];
    forall j | 0 <= j < |a|
      ensures s[j + 1] == a[j]
    {
      assert s[j + 1] == s[..|p|][j + 1];
    }
  }

  /** A placeholder of a brace-free key that starts a string names exactly that key. */
  lemma {:induction false} BracedPrefix(k: string, a: string, rest: string)
    requires BraceFree(k) && BraceFree(a)
    requires Strs.StartsWith(Braced(k) + rest, Braced(a))
    ensures k == a
  {
    var s := Braced(k) + rest;
    PlaceholderChars(s, a);
    assert Strs.StartsWith(s, Braced(k)) by {
      assert s[..|Braced(k)|] == Braced(k);
    }
    PlaceholderChars(s, k);
    assert |a| == |k|;
    assert forall j :: 0 <= j < |a| ==> k[j] == a[j];
  }

  /** The placeholder of one brace-free key does not start with that of another. */
  lemma BracedMismatch(k: string, a: string)
    requires BraceFree(k) && BraceFree(a) && k != a
    ensures !Strs.StartsWith(Braced(k), Braced(a))
  {
    var s := Braced(k) + "";
    assert s == Braced(k);
    if Strs.StartsWith(s, Braced(a)) {
      BracedPrefix(k, a, "");
    }
  }

  /** No placeholder of a brace-free key begins inside a segment and ends after it. */
  lemma {:induction false} SegmentNoStraddle(t: Segment, q: string, a: string)
    requires WellFormedSegment(t) && BraceFree(a)
    ensures Strs.NoStraddle(Text(t), q, Braced(a))
  {
    var p := Text(t);
    var pat := Braced(a);
    forall i | 0 <= i < |p| < i + |pat|
      ensures !Strs.OccursAt(p + q, i, pat)
    {
      if Strs.OccursAt(p + q, i, pat) {
        assert (p + q)[i..i + |pat|][0] == (p + q)[i];
        assert p[i] == '{';
        match t
        case Lit(x) =>
          assert false;
        case Hole(k) =>
          if i > 0 {
            assert false;
          } else {
            assert (p + q)[..|pat|] == pat;
            BracedPrefix(k, a, q);
            assert false;
          }
      }
    }
  }

  /** Replacing "{a}" in one segment fills it exactly when it is the hole "{a}". */
  lemma {:induction false} SegmentReplace(t: Segment, a: string, x: string)
    requires WellFormedSegment(t) && BraceFree(a)
    ensures Strs.ReplaceAll(Text(t), Braced(a), x) == Text(Resolve(t, map[a := x], {a}))
  {
    var pat := Braced(a);
    match t
    case Lit(l) =>
      Strs.ReplaceAllAbsent(l, pat, x);
    case Hole(k) =>
      if k == a {
        Strs.ReplaceAllExact(pat, x);
      } else {
        var p := Braced(k);
        BracedMismatch(k, a);
        Strs.ReplaceAllSkip(p, pat, x);
        var tail := k + "}";
        assert p[1..] == tail;
        assert Strs.Lacks(tail, pat[0]) by {
          forall i | 0 <= i < |tail| ensures tail[i] != '{' {
            if i < |k| { assert tail[i] == k[i]; }
          }
        }
        Strs.ReplaceAllAbsent(tail, pat, x);
        assert p == [p[0]] + p[1..];
      }
  }

  /**
   * On a well-formed template, replacing "{a}" everywhere is filling the holes of key a.
   * This is what connects strings.Replace to the segment view.
   */
  lemma {:induction false} ReplaceRender(ts: seq<Segment>, a: string, x: string)
    requires WellFormed(ts) && BraceFree(a)
    ensures Strs.ReplaceAll(Render(ts), Braced(a), x) == Render(ResolveAll(ts, map[a := x], {a}))
    decreases |ts|
  {
    var pat := Braced(a);
    var r := ResolveAll(ts, map[a := x], {a});
    if ts == [] {
      assert Render(ts) == "";
      assert r == [];
    } else {
      SegmentNoStraddle(ts[0], Render(ts[1..]), a);
      Strs.ReplaceAllConcat(Text(ts[0]), Render(ts[1..]), pat, x);
      SegmentReplace(ts[0], a, x);
      assert WellFormed(ts[1..]) by {
        forall i | 0 <= i < |ts[1..]| ensures WellFormedSegment(ts[1..][i]) {
          assert ts[1..][i] == ts[i + 1];
        }
      }
      ReplaceRender(ts[1..], a, x);
      assert r[1..] == ResolveAll(ts[1..], map[a := x], {a});
      assert r[0] == Resolve(ts[0], map[a := x], {a});
    }
  }

  /** Filling the holes of one more key, with its bound value. */
  lemma {:induction false} ResolveAllStep(ts: seq<Segment>, subs: map<string, string>, keys: set<string>, k: string)
    requires keys <= subs.Keys && k in subs
    ensures ResolveAll(ResolveAll(ts, subs, keys), map[k := subs[k]], {k})
         == ResolveAll(ts, subs, keys + {k})
  {
  }

  /** Filling holes with brace-free values keeps a template well formed. */
  lemma {:induction false} ResolveAllWellFormed(ts: seq<Segment>, subs: map<string, string>, keys: set<string>)
    requires WellFormed(ts) && keys <= subs.Keys
    requires forall k :: k in keys ==> BraceFree(subs[k])
    ensures WellFormed(ResolveAll(ts, subs, keys))
  {
  }

  // ---- Order independence --------------------------------------------------------

  /** The keys and values of `subs` contain no braces. */
  predicate BraceFreeBindings(subs: map<string, string>)
  {
    forall k :: k in subs ==> BraceFree(k) && BraceFree(subs[k])
  }

  /**
   * Substituting in any order fills exactly the holes of the keys visited so far.
   */
  lemma {:induction false} SubstituteRender(ts: seq<Segment>, subs: map<string, string>, order: seq<string>)
    requires WellFormed(ts) && BraceFreeBindings(subs)
    requires forall k :: k in order ==> k in subs
    ensures SubstituteInOrder(Render(ts), subs, order) == Render(ResolveAll(ts, subs, Elems(order)))
    decreases |order|
  {
    if order == [] {
      assert Elems(order) == {};
      assert ResolveAll(ts, subs, {}) == ts;
    } else {
      var init := order[..|order| - 1];
      var k := order[|order| - 1];
      assert order == init + [k];
      assert Elems(order) == Elems(init) + {k};
      SubstituteRender(ts, subs, init);
      ResolveAllWellFormed(ts, subs, Elems(init));
      ReplaceRender(ResolveAll(ts, subs, Elems(init)), k, subs[k]);
      ResolveAllStep(ts, subs, Elems(init), k);
    }
  }

  /**
   * Once every bound key has been visited, the substituted path is the expanded
   * template, whatever the order of the visit.
   */
  lemma {:induction false} SubstituteAllKeys(ts: seq<Segment>, subs: map<string, string>, order: seq<string>)
    requires WellFormed(ts) && BraceFreeBindings(subs)
    requires Elems(order) == subs.Keys
    ensures SubstituteInOrder(Render(ts), subs, order) == Render(Expand(ts, subs))
  {
    SubstituteRender(ts, subs, order);
  }

  /** Two visiting orders of the same keys give the same path. */
  lemma {:induction false} SubstitutionOrderIrrelevant(ts: seq<Segment>, subs: map<string, string>, o1: seq<string>, o2: seq<string>)
    requires WellFormed(ts) && BraceFreeBindings(subs)
    requires Elems(o1) == subs.Keys && Elems(o2) == subs.Keys
    ensures SubstituteInOrder(Render(ts), subs, o1) == SubstituteInOrder(Render(ts), subs, o2)
  {
    SubstituteAllKeys(ts, subs, o1);
    SubstituteAllKeys(ts, subs, o2);
  }

  /**
   * Substitution is idempotent: once every bound key has been visited, visiting them
   * all again, in any order, changes nothing.
   */
  lemma {:induction false} SubstituteIdempotent(ts: seq<Segment>, subs: map<string, string>, o1: seq<string>, o2: seq<string>)
    requires WellFormed(ts) && BraceFreeBindings(subs)
    requires Elems(o1) == subs.Keys && Elems(o2) == subs.Keys
    ensures SubstituteInOrder(SubstituteInOrder(Render(ts), subs, o1), subs, o2)
         == SubstituteInOrder(Render(ts), subs, o1)
  {
    SubstituteAllKeys(ts, subs, o1);
    var e := Expand(ts, subs);
    ResolveAllWellFormed(ts, subs, subs.Keys);
    SubstituteAllKeys(e, subs, o2);
    assert Expand(e, subs) == e;
  }

  /**
   * Why the premises of SubstitutionOrderIrrelevant are needed: with a value that is
   * itself a placeholder, the two orders of the keys give different paths.
   */
  lemma {:induction false} OrderMattersWithBraces()
    ensures var subs := map["a" := "b", "b" := "Y"];
            && SubstituteInOrder("{{a}}", subs, ["a", "b"]) == "Y"
            && SubstituteInOrder("{{a}}", subs, ["b", "a"]) == "{b}"
  {
    var subs := map["a" := "b", "b" := "Y"];
    assert Braced("a") == "{a}" && Braced("b") == "{b}";
    SubstituteTwo("{{a}}", subs, "a", "b");
    SubstituteTwo("{{a}}", subs, "b", "a");
    ReplaceHoleA();
    ReplaceHoleB();
    Strs.ReplaceAllExact("{b}", "Y");
  }

  /** Substitution with two keys: one replace-all for each, in the visiting order. */
  lemma {:induction false} SubstituteTwo(api: string, subs: map<string, string>, a: string, b: string)
    requires a in subs && b in subs
    ensures SubstituteInOrder(api, subs, [a, b])
         == Strs.ReplaceAll(Strs.ReplaceAll(api, Braced(a), subs[a]), Braced(b), subs[b])
  {
    assert [a, b][..1] == [a] && [a][..0] == [];
    assert SubstituteInOrder(api, subs, [a]) == Strs.ReplaceAll(api, Braced(a), subs[a]);
  }

  /** "{{a}}" with "{a}" replaced by "b" is "{b}". */
  lemma ReplaceHoleA()
    ensures Strs.ReplaceAll("{{a}}", "{a}", "b") == "{b}"
  {
    var s := "{{a}}";
    assert s[..3] != "{a}" by { assert s[..3][1] == '{'; }
    Strs.ReplaceAllSkip(s, "{a}", "b");
    var t := s[1..];
    assert t == "{a}}";
    assert t[..3] == "{a}";
    assert t[3..] == "}";
    assert Strs.ReplaceAll("}", "{a}", "b") == "}";
  }

  /** "{{a}}" has no "{b}" in it. */
  lemma ReplaceHoleB()
    ensures Strs.ReplaceAll("{{a}}", "{b}", "Y") == "{{a}}"
  {
    var pat := "{b}";
    var s0 := "{{a}}";
    var s1 := "{a}}";
    var s2 := "a}}";
    var s3 := "}}";
    assert s0[1..] == s1 && s1[1..] == s2 && s2[1..] == s3;
    assert s0[..3] != pat by { assert s0[..3][1] == '{'; }
    assert s1[..3] != pat by { assert s1[..3][1] == 'a'; }
    assert s2[..3] != pat by { assert s2[..3][0] == 'a'; }
    Strs.ReplaceAllSkip(s0, pat, "Y");
    Strs.ReplaceAllSkip(s1, pat, "Y");
    Strs.ReplaceAllSkip(s2, pat, "Y");
    assert Strs.ReplaceAll(s3, pat, "Y") == s3;
    assert [s2[0]] + s3 == s2;
    assert [s1[0]] + s2 == s1;
    assert [s0[0]] + s1 == s0;
  }

  /**
   * What the expanded template holds at a hole: the bound value when the key is bound,
   * the literal placeholder "{key}" when it is not.
   */
  lemma {:induction false} ExpandAt(ts: seq<Segment>, subs: map<string, string>, i: nat)
    requires i < |ts| && ts[i].Hole?
    ensures var e := Expand(ts, subs);
            Render(e) == Render(e[..i])
                       + (if ts[i].key in subs then subs[ts[i].key] else Braced(ts[i].key))
                       + Render(e[i + 1..])
  {
    RenderAt(Expand(ts, subs), i);
  }

  /** The golden endpoint's template: "/photos/{id}" with "id" bound to v. */
  lemma {:induction false} PhotosPath(v: string)
    ensures SubstituteInOrder("/photos/{id}", map["id" := v], ["id"]) == "/photos/" + v
  {
    var ts := [Lit("/photos/"), Hole("id")];
    assert Render(ts) == "/photos/{id}" by {
      assert Render(ts[1..]) == "{id}" by { assert ts[1..][1..] == []; }
    }
    assert "/photos/{id}" == Render(ts);
    assert WellFormed(ts);
    ReplaceRender(ts, "id", v);
    var r := ResolveAll(ts, map["id" := v], {"id"});
    assert r == [Lit("/photos/"), Lit(v)];
    assert Render(r[1..]) == v by { assert r[1..][1..] == []; }
    assert ["id"][..0] == [];
  }
}
