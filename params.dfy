/**
 * How the generator prints a builder method's parameters (getParamsList and
 * getParamType, pinned down by the table tests of generate/generate_test.go).
 *
 * A parameter's type is one of the three go/ast forms the generator prints: an
 * identifier, a pointer to a type, or a package-qualified identifier. A parameter list
 * prints as "name type" pairs joined by "," without spaces. Each printer is paired with
 * a parser that undoes it, so that the printed text determines the parameters.
 */
module ParamRender {
  import opened Wrappers
  import Strs

  /** The type expressions getParamType prints. */
  datatype TypeExpr =
    | Ident(name: string)                 // an *ast.Ident such as string
    | Star(elem: TypeExpr)                // an *ast.StarExpr such as *Pointer
    | Selector(pkg: string, name: string) // an *ast.SelectorExpr such as some.Pointer

  /** One declared parameter, in declaration order within its list. */
  datatype Param = Param(name: string, typ: TypeExpr)

  predicate IsLetter(c: char)
  {
    'a' <= c <= 'z' || 'A' <= c <= 'Z' || c == '_'
  }

  predicate IsDigit(c: char)
  {
    '0' <= c <= '9'
  }

  /** A Go identifier (ASCII letters only): a letter followed by letters and digits. */
  predicate IsIdent(s: string)
  {
    |s| > 0 && IsLetter(s[0]) && forall i :: 0 <= i < |s| ==> IsLetter(s[i]) || IsDigit(s[i])
  }

  predicate WellFormedType(t: TypeExpr)
  {
    match t
    case Ident(n) => IsIdent(n)
    case Star(e) => WellFormedType(e)
    case Selector(p, n) => IsIdent(p) && IsIdent(n)
  }

  predicate WellFormedParam(p: Param)
  {
    IsIdent(p.name) && WellFormedType(p.typ)
  }

  predicate WellFormedParams(ps: seq<Param>)
  {
    forall i :: 0 <= i < |ps| ==> WellFormedParam(ps[i])
  }

  /** getParamType: an identifier verbatim, a pointer as "*" and its element, a selector as pkg.Name. */
  function RenderType(t: TypeExpr): string
  {
    match t
    case Ident(n) => n
    case Star(e) => "*" + RenderType(e)
    case Selector(p, n) => p + "." + n
  }

  /** Reads back a printed type: leading stars, then an identifier or pkg.Name. */
  function ParseType(s: string): Option<TypeExpr>
    decreases |s|
  {
    if |s| == 0 then None
    else if s[0] == '*' then
      match ParseType(s[1..])
      case Some(e) => Some(Star(e))
      case None => None
    else
      var parts := Strs.Split(s, '.');
      if |parts| == 1 && IsIdent(parts[0]) then Some(Ident(parts[0]))
      else if |parts| == 2 && IsIdent(parts[0]) && IsIdent(parts[1]) then Some(Selector(parts[0], parts[1]))
      else None
  }

  /** A character that can occur in a printed type. */
  predicate IsTypeChar(c: char)
  {
    IsLetter(c) || IsDigit(c) || c == '*' || c == '.'
  }

  lemma {:induction false} RenderTypeChars(t: TypeExpr)
    requires WellFormedType(t)
    ensures forall i :: 0 <= i < |RenderType(t)| ==> IsTypeChar(RenderType(t)[i])
  {
    match t
    case Ident(n) =>
    case Star(e) =>
      RenderTypeChars(e);
      assert forall i :: 1 <= i < |RenderType(t)| ==> RenderType(t)[i] == RenderType(e)[i - 1];
    case Selector(p, n) =>
      var s := p + "." + n;
      assert forall i :: 0 <= i < |p| ==> s[i] == p[i];
      assert forall i :: |p| + 1 <= i < |s| ==> s[i] == n[i - |p| - 1];
  }

  /** An identifier contains no '.', so splitting it on '.' gives it back. */
  lemma {:induction false} SplitIdent(n: string)
    requires IsIdent(n)
    ensures Strs.Split(n, '.') == [n]
  {
    Strs.SplitJoin([n], '.');
  }

  /** Reading back a printed well-formed type gives the type. */
  lemma {:induction false} ParseRenderType(t: TypeExpr)
    requires WellFormedType(t)
    ensures ParseType(RenderType(t)) == Some(t)
  {
    match t
    case Ident(n) =>
      SplitIdent(n);
    case Star(e) =>
      ParseRenderType(e);
      assert ("*" + RenderType(e))[1..] == RenderType(e);
    case Selector(p, n) =>
      var s := p + "." + n;
      assert Strs.Join([p, n], '.') == s by {
        Strs.JoinCons(p, [n], '.');
      }
      Strs.SplitJoin([p, n], '.');
      assert s[0] == p[0];
  }

  /** Whatever ParseType accepts is a well-formed type that prints as the input. */
  lemma {:induction false} RenderParseType(s: string, t: TypeExpr)
    requires ParseType(s) == Some(t)
    ensures WellFormedType(t) && RenderType(t) == s
    decreases |s|
  {
    if s[0] == '*' {
      var e := ParseType(s[1..]).value;
      RenderParseType(s[1..], e);
      assert s == "*" + s[1..];
    } else {
      var parts := Strs.Split(s, '.');
      Strs.JoinSplit(s, '.');
      if |parts| == 2 {
        Strs.JoinCons(parts[0], [parts[1]], '.');
        assert parts == [parts[0]] + [parts[1]];
      }
    }
  }

  /** A printed type is read back as exactly the types that print as it. */
  lemma {:induction false} ParseTypeIff(s: string, t: TypeExpr)
    ensures ParseType(s) == Some(t) <==> WellFormedType(t) && RenderType(t) == s
  {
    if ParseType(s) == Some(t) {
      RenderParseType(s, t);
    }
    if WellFormedType(t) && RenderType(t) == s {
      ParseRenderType(t);
    }
  }

  /** One entry of getParamsList: the name, a space, the printed type. */
  function RenderParam(p: Param): string
  {
    p.name + " " + RenderType(p.typ)
  }

  function ParseParam(piece: string): Option<Param>
  {
    var parts := Strs.Split(piece, ' ');
    if |parts| == 2 && IsIdent(parts[0]) then
      match ParseType(parts[1])
      case Some(t) => Some(Param(parts[0], t))
      case None => None
    else None
  }

  /** A printed well-formed parameter has no ',' in it. */
  lemma {:induction false} RenderParamChars(p: Param)
    requires WellFormedParam(p)
    ensures Strs.Lacks(RenderParam(p), ',') && Strs.Lacks(RenderType(p.typ), ' ') && Strs.Lacks(p.name, ' ')
  {
    RenderTypeChars(p.typ);
    var s := RenderParam(p);
    assert forall i :: 0 <= i < |p.name| ==> s[i] == p.name[i];
    assert forall i :: |p.name| + 1 <= i < |s| ==> s[i] == RenderType(p.typ)[i - |p.name| - 1];
  }

  lemma {:induction false} ParseRenderParam(p: Param)
    requires WellFormedParam(p)
    ensures ParseParam(RenderParam(p)) == Some(p)
  {
    RenderParamChars(p);
    Strs.JoinCons(p.name, [RenderType(p.typ)], ' ');
    Strs.SplitJoin([p.name, RenderType(p.typ)], ' ');
    ParseRenderType(p.typ);
  }

  lemma {:induction false} RenderParseParam(piece: string, p: Param)
    requires ParseParam(piece) == Some(p)
    ensures WellFormedParam(p) && RenderParam(p) == piece
  {
    var parts := Strs.Split(piece, ' ');
    RenderParseType(parts[1], p.typ);
    Strs.JoinSplit(piece, ' ');
    Strs.JoinCons(parts[0], [parts[1]], ' ');
    assert parts == [parts[0]] + [parts[1]];
  }

  /** The entries of getParamsList, one per parameter, in order. */
  function RenderEach(ps: seq<Param>): (r: seq<string>)
    ensures |r| == |ps|
    ensures forall i :: 0 <= i < |ps| ==> r[i] == RenderParam(ps[i])
  {
    if |ps| == 0 then [] else [RenderParam(ps[0])] + RenderEach(ps[1..])
  }

  /** getParamsList: the entries joined by "," with no spaces; "" for no parameters. */
  function RenderParams(ps: seq<Param>): string
  {
    Strs.Join(RenderEach(ps), ',')
  }

  function ParseEach(pieces: seq<string>): Option<seq<Param>>
  {
    if |pieces| == 0 then Some([])
    else
      match (ParseParam(pieces[0]), ParseEach(pieces[1..]))
      case (Some(p), Some(rest)) => Some([p] + rest)
      case _ => None
  }

  /** Reads back a printed parameter list. */
  function ParseParams(s: string): Option<seq<Param>>
  {
    if s == "" then Some([]) else ParseEach(Strs.Split(s, ','))
  }

  lemma {:induction false} ParseEachRendered(ps: seq<Param>)
    requires WellFormedParams(ps)
    ensures ParseEach(RenderEach(ps)) == Some(ps)
  {
    if |ps| > 0 {
      assert WellFormedParams(ps[1..]) by {
        forall i | 0 <= i < |ps[1..]| ensures WellFormedParam(ps[1..][i]) {
          assert ps[1..][i] == ps[i + 1];
        }
      }
      ParseEachRendered(ps[1..]);
      ParseEachRenderedStep(ps);
    }
  }

  /** The step of ParseEachRendered: the first entry parses back to the first parameter. */
  lemma {:induction false} ParseEachRenderedStep(ps: seq<Param>)
    requires |ps| > 0 && WellFormedParam(ps[0])
    requires ParseEach(RenderEach(ps[1..])) == Some(ps[1..])
    ensures ParseEach(RenderEach(ps)) == Some(ps)
  {
    var pieces := RenderEach(ps);
    ParseRenderParam(ps[0]);
    assert pieces[0] == RenderParam(ps[0]);
    assert pieces[1..] == RenderEach(ps[1..]);
    assert ps == [ps[0]] + ps[1..];
  }

  lemma {:induction false} ParseEachSound(pieces: seq<string>, ps: seq<Param>)
    requires ParseEach(pieces) == Some(ps)
    ensures WellFormedParams(ps) && RenderEach(ps) == pieces
  {
    if |pieces| > 0 {
      var p := ParseParam(pieces[0]).value;
      var rest := ParseEach(pieces[1..]).value;
      RenderParseParam(pieces[0], p);
      ParseEachSound(pieces[1..], rest);
      assert ps == [p] + rest;
      assert ps[1..] == rest;
      assert pieces == [pieces[0]] + pieces[1..];
    }
  }

  /** Reading back a printed list of well-formed parameters gives the list. */
  lemma {:induction false} ParseRenderParams(ps: seq<Param>)
    requires WellFormedParams(ps)
    ensures ParseParams(RenderParams(ps)) == Some(ps)
  {
    if |ps| > 0 {
      var entries := RenderEach(ps);
      forall i | 0 <= i < |entries|
        ensures Strs.Lacks(entries[i], ',')
      {
        RenderParamChars(ps[i]);
      }
      assert IsIdent(ps[0].name);
      Strs.JoinHead(entries, ',');
      Strs.SplitJoin(entries, ',');
      ParseEachRendered(ps);
    }
  }

  /** Whatever ParseParams accepts is a list of well-formed parameters printing as the input. */
  lemma {:induction false} RenderParseParams(s: string, ps: seq<Param>)
    requires ParseParams(s) == Some(ps)
    ensures WellFormedParams(ps) && RenderParams(ps) == s
  {
    if s != "" {
      ParseEachSound(Strs.Split(s, ','), ps);
      Strs.JoinSplit(s, ',');
    }
  }

  /** The identifiers that occur in the tables below. */
  lemma {:induction false} SampleIdents()
    ensures IsIdent("arg") && IsIdent("arg1") && IsIdent("arg2") && IsIdent("arg3") && IsIdent("arg4")
    ensures IsIdent("string") && IsIdent("int") && IsIdent("bool")
    ensures IsIdent("some") && IsIdent("Pointer")
  {
    assert IsIdent("arg");
    assert IsIdent("arg1");
    assert IsIdent("arg2");
    assert IsIdent("arg3");
    assert IsIdent("arg4");
    assert IsIdent("string");
    assert IsIdent("int");
    assert IsIdent("bool");
    assert IsIdent("some");
    assert IsIdent("Pointer");
  }

  /** The table of TestGetParamsList, each printed and read back. */
  lemma {:induction false} ParamsListEmpty()
    ensures RenderParams([]) == "" && ParseParams("") == Some([])
  {
  }

  lemma {:induction false} ParamsListOne()
    ensures var ps := [Param("arg", Ident("string"))];
            RenderParams(ps) == "arg string" && ParseParams("arg string") == Some(ps)
  {
    var ps := [Param("arg", Ident("string"))];
    SampleIdents();
    assert RenderParams(ps) == "arg string";
    ParseRenderParams(ps);
  }

  lemma {:induction false} ParamsListTwo()
    ensures var ps := [Param("arg1", Ident("string")), Param("arg2", Ident("int"))];
            RenderParams(ps) == "arg1 string,arg2 int" && ParseParams("arg1 string,arg2 int") == Some(ps)
  {
    var ps := [Param("arg1", Ident("string")), Param("arg2", Ident("int"))];
    SampleIdents();
    assert RenderParams(ps) == "arg1 string,arg2 int" by {
      assert RenderParam(ps[0]) == "arg1 string" && RenderParam(ps[1]) == "arg2 int";
      assert RenderEach(ps) == ["arg1 string", "arg2 int"];
      Strs.JoinCons("arg1 string", ["arg2 int"], ',');
    }
    ParseRenderParams(ps);
  }

  lemma {:induction false} ParamsListFour()
    ensures var ps := [Param("arg1", Ident("string")), Param("arg2", Ident("int")),
                       Param("arg3", Ident("bool")), Param("arg4", Ident("string"))];
            var s := "arg1 string,arg2 int,arg3 bool,arg4 string";
            RenderParams(ps) == s && ParseParams(s) == Some(ps)
  {
    var ps := [Param("arg1", Ident("string")), Param("arg2", Ident("int")),
               Param("arg3", Ident("bool")), Param("arg4", Ident("string"))];
    FourRendered(ps);
    FourWellFormed(ps);
    ParseRenderParams(ps);
  }

  lemma {:induction false} FourRendered(ps: seq<Param>)
    requires ps == [Param("arg1", Ident("string")), Param("arg2", Ident("int")),
                    Param("arg3", Ident("bool")), Param("arg4", Ident("string"))]
    ensures RenderParams(ps) == "arg1 string,arg2 int,arg3 bool,arg4 string"
  {
    RenderFourParams(ps[0], ps[1], ps[2], ps[3]);
    assert ps == [ps[0], ps[1], ps[2], ps[3]];
    RenderSample("arg1", "string");
    RenderSample("arg2", "int");
    RenderSample("arg3", "bool");
    RenderSample("arg4", "string");
    FourJoined();
  }

  /** A parameter of a named type prints as its name, a space and the type name. */
  lemma {:induction false} RenderSample(name: string, typ: string)
    ensures RenderParam(Param(name, Ident(typ))) == name + " " + typ
  {
  }

  lemma {:induction false} FourJoined()
    ensures ("arg1" + " " + "string") + "," + ("arg2" + " " + "int") + ","
          + ("arg3" + " " + "bool") + "," + ("arg4" + " " + "string")
         == "arg1 string,arg2 int,arg3 bool,arg4 string"
  {
    assert ("arg1" + " " + "string") + "," + ("arg2" + " " + "int") == "arg1 string,arg2 int";
    assert "arg1 string,arg2 int" + "," + ("arg3" + " " + "bool") == "arg1 string,arg2 int,arg3 bool";
    assert "arg1 string,arg2 int,arg3 bool" + "," + ("arg4" + " " + "string")
        == "arg1 string,arg2 int,arg3 bool,arg4 string";
  }

  lemma {:induction false} FourWellFormed(ps: seq<Param>)
    requires ps == [Param("arg1", Ident("string")), Param("arg2", Ident("int")),
                    Param("arg3", Ident("bool")), Param("arg4", Ident("string"))]
    ensures WellFormedParams(ps)
  {
    SampleIdents();
  }

  lemma {:induction false} RenderFourParams(p1: Param, p2: Param, p3: Param, p4: Param)
    ensures RenderParams([p1, p2, p3, p4])
         == RenderParam(p1) + "," + RenderParam(p2) + "," + RenderParam(p3) + "," + RenderParam(p4)
  {
    assert RenderParams([p4]) == RenderParam(p4);
    RenderParamsCons(p3, [p4]);
    assert [p3] + [p4] == [p3, p4];
    RenderParamsCons(p2, [p3, p4]);
    assert [p2] + [p3, p4] == [p2, p3, p4];
    RenderParamsCons(p1, [p2, p3, p4]);
    assert [p1] + [p2, p3, p4] == [p1, p2, p3, p4];
  }

  /** A parameter in front of a nonempty list prints in front of it, after a ",". */
  lemma {:induction false} RenderParamsCons(p: Param, ps: seq<Param>)
    requires |ps| > 0
    ensures RenderParams([p] + ps) == RenderParam(p) + "," + RenderParams(ps)
  {
    assert RenderEach([p] + ps) == [RenderParam(p)] + RenderEach(ps);
    Strs.JoinCons(RenderParam(p), RenderEach(ps), ',');
  }

  /** The table of TestParamType, each printed and read back. */
  lemma {:induction false} ParamTypeIdent()
    ensures RenderType(Ident("string")) == "string" && ParseType("string") == Some(Ident("string"))
  {
    SampleIdents();
    ParseRenderType(Ident("string"));
  }

  lemma {:induction false} ParamTypePointer()
    ensures RenderType(Star(Ident("Pointer"))) == "*Pointer"
         && ParseType("*Pointer") == Some(Star(Ident("Pointer")))
  {
    SampleIdents();
    ParseRenderType(Star(Ident("Pointer")));
  }

  lemma {:induction false} ParamTypeQualifiedPointer()
    ensures RenderType(Star(Selector("some", "Pointer"))) == "*some.Pointer"
         && ParseType("*some.Pointer") == Some(Star(Selector("some", "Pointer")))
  {
    SampleIdents();
    ParseRenderType(Star(Selector("some", "Pointer")));
  }
}
