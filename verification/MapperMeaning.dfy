/** Which texts the MyBatis rewriting takes, and what it makes of them: it undoes printing a template. */
module MapperMeaning {
  import opened Values
  import opened CompilerSpec
  import opened Mapper

  // ---- text ----

  ghost predicate Blank(s: string) {
    forall i :: 0 <= i < |s| ==> IsSpace(s[i])
  }

  ghost predicate Bare(s: string) {
    s != "" ==> !IsSpace(s[0]) && !IsSpace(s[|s| - 1])
  }

  /** `core`, which neither starts nor ends with a space, and nothing but spaces around it. */
  ghost predicate Spaced(text: string, core: string) {
    Bare(core) && exists a, b :: Blank(a) && Blank(b) && text == a + core + b
  }

  ghost predicate Without(s: string, c: char) {
    forall i :: 0 <= i < |s| ==> s[i] != c
  }

  ghost predicate Occurs(s: string, part: string) {
    exists i :: 0 <= i <= |s| && part <= s[i..]
  }

  lemma {:induction false} TrimLeftSkips(a: string, s: string)
    requires Blank(a) && (s != "" ==> !IsSpace(s[0]))
    ensures TrimLeft(a + s) == s
  {
    if a != "" {
      assert (a + s)[1..] == a[1..] + s;
      TrimLeftSkips(a[1..], s);
    } else {
      assert a + s == s;
    }
  }

  lemma {:induction false} TrimRightSkips(s: string, b: string)
    requires Blank(b) && (s != "" ==> !IsSpace(s[|s| - 1]))
    ensures TrimRight(s + b) == s
  {
    if b != "" {
      assert (s + b)[..|s + b| - 1] == s + b[..|b| - 1];
      TrimRightSkips(s, b[..|b| - 1]);
    } else {
      assert s + b == s;
    }
  }

  lemma {:induction false} TrimLeftLeaves(s: string) returns (a: string)
    ensures Blank(a) && s == a + TrimLeft(s) && (TrimLeft(s) != "" ==> !IsSpace(TrimLeft(s)[0]))
  {
    if s != "" && IsSpace(s[0]) {
      a := TrimLeftLeaves(s[1..]);
      assert s == [s[0]] + s[1..];
      a := [s[0]] + a;
    } else {
      a := "";
    }
  }

  lemma {:induction false} TrimRightLeaves(s: string) returns (b: string)
    ensures Blank(b) && s == TrimRight(s) + b && TrimRight(s) <= s && (TrimRight(s) != "" ==> !IsSpace(TrimRight(s)[|TrimRight(s)| - 1]))
  {
    if s != "" && IsSpace(s[|s| - 1]) {
      b := TrimRightLeaves(s[..|s| - 1]);
      assert s == s[..|s| - 1] + [s[|s| - 1]];
      b := b + [s[|s| - 1]];
    } else {
      b := "";
    }
  }

  /** Trimming takes away the spaces around, and only those. */
  lemma TrimMeans(text: string, core: string)
    ensures Trim(text) == core <==> Spaced(text, core)
  {
    hide IsSpace, TrimLeft, TrimRight;
    if Spaced(text, core) {
      var a, b :| Blank(a) && Blank(b) && text == a + core + b;
      if core == "" {
        assert a + core + b == (a + b) + "";
        assert Blank(a + b);
        TrimLeftSkips(a + b, "");
        TrimRightSkips("", "");
        assert "" + "" == "";
      } else {
        assert a + core + b == a + (core + b);
        TrimLeftSkips(a, core + b);
        TrimRightSkips(core, b);
      }
    } else {
      var a := TrimLeftLeaves(text);
      var b := TrimRightLeaves(TrimLeft(text));
      assert text == a + Trim(text) + b;
      assert Bare(Trim(text));
    }
  }

  lemma {:induction false} FindMeans(s: string, c: char)
    ensures match Find(s, c)
            case None => Without(s, c)
            case Some(i) => s[i] == c && Without(s[..i], c)
  {
    if s != "" && s[0] != c {
      FindMeans(s[1..], c);
      match Find(s[1..], c)
      case None =>
        assert s == [s[0]] + s[1..];
      case Some(i) =>
        assert s[..i + 1] == [s[0]] + s[1..][..i];
    }
  }

  lemma {:induction false} FindFirst(s: string, c: char, rest: string)
    requires Without(s, c)
    ensures Find(s + [c] + rest, c) == Some(|s|) && Find(s, c) == None
  {
    if s != "" {
      FindFirst(s[1..], c, rest);
      assert (s + [c] + rest)[1..] == s[1..] + [c] + rest;
    }
  }

  /** No `#{` stands anywhere. */
  ghost predicate NoHole(s: string) {
    forall i :: 0 <= i < |s| - 1 ==> !HoleAt(s, i)
  }

  predicate HoleAt(s: string, i: int)
    requires 0 <= i < |s| - 1
  {
    s[i] == '#' && s[i + 1] == '{'
  }

  lemma NoHoleNext(s: string)
    requires |s| >= 2
    ensures NoHole(s) <==> !HoleAt(s, 0) && NoHole(s[1..])
  {
    var t := s[1..];
    if NoHole(s) {
      forall i | 0 <= i < |t| - 1 ensures !HoleAt(t, i) {
        assert !HoleAt(s, i + 1);
      }
    }
    if !HoleAt(s, 0) && NoHole(t) {
      forall i | 0 <= i < |s| - 1 ensures !HoleAt(s, i) {
        assert i > 0 ==> !HoleAt(t, i - 1);
      }
    }
  }

  lemma {:induction false} FindHoleMeans(s: string)
    ensures match FindHole(s)
            case None => NoHole(s)
            case Some(i) => NoHole(s[..i]) && HoleAt(s, i)
  {
    if |s| >= 2 && !HoleAt(s, 0) {
      FindHoleMeans(s[1..]);
      NoHoleNext(s);
      if FindHole(s).Some? {
        var i := FindHole(s).value;
        assert s[..i][1..] == s[1..][..i - 1];
        if i >= 2 {
          NoHoleNext(s[..i]);
        }
      }
    }
  }

  lemma {:induction false} HoleAfter(chunk: string, rest: string)
    requires NoHole(chunk)
    ensures FindHole(chunk + "#{" + rest) == Some(|chunk|) && FindHole(chunk) == None
  {
    var s := chunk + "#{" + rest;
    if chunk != "" {
      if |chunk| > 1 {
        NoHoleNext(chunk);
      }
      HoleAfter(chunk[1..], rest);
      assert s[1..] == chunk[1..] + "#{" + rest;
      assert |chunk| == 1 ==> s[1] == '#';
      assert |chunk| > 1 ==> s[1] == chunk[1];
      assert !(s[0] == '#' && s[1] == '{') by {
        assert |chunk| > 1 ==> !HoleAt(chunk, 0);
      }
    }
  }

  lemma {:induction false} ContainsMeans(s: string, part: string)
    ensures Contains(s, part) <==> Occurs(s, part)
  {
    assert s[0..] == s;
    if s != "" {
      ContainsMeans(s[1..], part);
      if Occurs(s[1..], part) {
        var i :| 0 <= i <= |s[1..]| && part <= s[1..][i..];
        assert s[i + 1..] == s[1..][i..];
      }
      if Occurs(s, part) && !(part <= s) {
        var i :| 0 <= i <= |s| && part <= s[i..];
        assert s[i..] == s[1..][i - 1..];
      }
    }
  }

  // ---- what a placeholder may say ----

  predicate Plain(c: char) {
    IdentPart(c) || c == '.'
  }

  /** What the character `c` may be, after a dot or at the start, and elsewhere. */
  predicate MayStand(c: char, start: bool) {
    Plain(c) && (start ==> IdentStart(c))
  }

  ghost predicate PropertyRest(s: string, start: bool) {
    && (if s == "" then !start else s[|s| - 1] != '.' && MayStand(s[0], start))
    && forall i :: 1 <= i < |s| ==> MayStand(s[i], s[i - 1] == '.')
  }

  /** Identifiers joined by dots: letters, digits, `_`, `$` and dots, where the first character and every one
      after a dot may start an identifier, and no dot at the end. */
  ghost predicate Property(s: string) {
    PropertyRest(s, true)
  }

  lemma {:induction false} PropertyFromMeans(s: string, start: bool)
    ensures PropertyFrom(s, start) <==> PropertyRest(s, start)
    decreases |s|
  {
    if s != "" {
      PropertyFromMeans(s[1..], !start && s[0] == '.');
      RestNext(s, start);
      hide PropertyRest;
    }
  }

  lemma RestNext(s: string, start: bool)
    requires s != ""
    ensures PropertyRest(s, start) <==> MayStand(s[0], start) && PropertyRest(s[1..], !start && s[0] == '.')
  {
    var t, next := s[1..], !start && s[0] == '.';
    assert forall i :: 0 <= i < |t| ==> t[i] == s[i + 1];
    assert start && MayStand(s[0], start) ==> s[0] != '.';
    hide MayStand;
    if PropertyRest(s, start) {
      assert |t| > 0 ==> MayStand(s[1], s[0] == '.');
      forall i | 1 <= i < |t| ensures MayStand(t[i], t[i - 1] == '.') {
        assert MayStand(s[i + 1], s[i] == '.');
      }
    }
    if MayStand(s[0], start) && PropertyRest(t, next) {
      forall i | 1 <= i < |s| ensures MayStand(s[i], s[i - 1] == '.') {
        if i > 1 {
          assert MayStand(t[i - 1], t[i - 2] == '.');
        }
      }
    }
  }

  lemma PropertyIsPlain(s: string, c: char)
    requires Property(s) && !Plain(c)
    ensures Without(s, c) && Bare(s)
  {
    forall i | 0 <= i < |s| ensures s[i] != c && !IsSpace(s[i]) {
      assert i > 0 ==> MayStand(s[i], s[i - 1] == '.');
    }
  }

  /** `key=value` with spaces around both sides. */
  ghost predicate Gives(option: string, key: string, value: string) {
    exists k, v :: Spaced(k, key) && Spaced(v, value) && option == k + "=" + v
  }

  /** What the rewriting makes of an option: trimmed, cut at the first `=`, both sides trimmed. */
  ghost predicate Cuts(option: string, key: string, value: string) {
    var text := Trim(option);
    Find(text, '=').Some? && Trim(text[..Find(text, '=').value]) == key && Trim(text[Find(text, '=').value + 1..]) == value
  }

  lemma SpacedIs(a: string, core: string, b: string)
    requires Blank(a) && Blank(b) && Bare(core)
    ensures Spaced(a + core + b, core)
  {
  }

  lemma BareAround(left: string, right: string)
    requires left != "" && right != "" && !IsSpace(left[0]) && !IsSpace(right[|right| - 1])
    ensures Bare(left + "=" + right)
  {
    hide IsSpace;
  }

  lemma SpacedParts(text: string, core: string) returns (a: string, b: string)
    requires Spaced(text, core)
    ensures Blank(a) && Blank(b) && text == a + core + b
  {
    a, b :| Blank(a) && Blank(b) && text == a + core + b;
  }

  lemma Regroup(a: string, left: string, m: string, right: string, b: string)
    ensures a + (left + m + right) + b == (a + left) + m + (right + b)
  {
  }

  lemma GivenCuts(option: string, key: string, value: string)
    requires Gives(option, key, value) && key != "" && value != "" && Without(key, '=')
    ensures Cuts(option, key, value)
  {
    var k, v :| Spaced(k, key) && Spaced(v, value) && option == k + "=" + v;
    var a, b := SpacedParts(k, key);
    var c, d := SpacedParts(v, value);
    var left, right := key + b, c + value;
    assert k == a + left && v == right + d;
    Regroup(a, left, "=", right, d);
    BlankHasNoSign(b);
    hide Trim, Find, IsSpace, Blank;
    BareAround(left, right);
    SpacedIs(a, left + "=" + right, d);
    TrimMeans(option, left + "=" + right);
    CutsAt(left, right);
    SpacedLeft(key, b);
    SpacedRight(c, value);
    TrimMeans(left, key);
    TrimMeans(right, value);
  }

  lemma SpacedLeft(core: string, b: string)
    requires Bare(core) && Blank(b)
    ensures Spaced(core + b, core)
  {
    SpacedIs("", core, b);
    assert "" + core + b == core + b;
  }

  lemma SpacedRight(a: string, core: string)
    requires Bare(core) && Blank(a)
    ensures Spaced(a + core, core)
  {
    SpacedIs(a, core, "");
    assert a + core + "" == a + core;
  }

  lemma CutsAt(left: string, right: string)
    requires Without(left, '=')
    ensures var text := left + "=" + right; Find(text, '=') == Some(|left|) && text[..|left|] == left && text[|left| + 1..] == right
  {
    FindFirst(left, '=', right);
    assert left + "=" + right == left + ['='] + right;
    hide Find;
  }

  lemma BlankHasNoSign(s: string)
    requires Blank(s)
    ensures Without(s, '=')
  {
  }

  lemma CutGives(option: string, key: string, value: string)
    requires Cuts(option, key, value)
    ensures Gives(option, key, value)
  {
    hide Trim, Find, IsSpace, Spaced;
    var text := Trim(option);
    TrimMeans(option, text);
    var a, b := SpacedParts(option, text);
    var i := Find(text, '=').value;
    var left, right := text[..i], text[i + 1..];
    assert text == left + "=" + right;
    Regroup(a, left, "=", right, b);
    TrimMeans(left, key);
    TrimMeans(right, value);
    SpacedMore(a, left, key, "");
    SpacedMore("", right, value, b);
    assert a + left + "" == a + left && "" + right + b == right + b;
  }

  lemma SpacedMore(a: string, text: string, core: string, b: string)
    requires Blank(a) && Blank(b) && Spaced(text, core)
    ensures Spaced(a + text + b, core)
  {
    var c, d := SpacedParts(text, core);
    assert a + (c + core + d) + b == (a + c) + core + (d + b);
    SpacedIs(a + c, core, d + b);
    hide IsSpace;
  }

  /** `jdbcType=T` with the given type, and spaces around both sides. */
  ghost predicate States(option: string, t: Type) {
    t != OTHER_TYPE && Gives(option, "jdbcType", TypeName(t))
  }

  /** An option is accepted exactly when it states the declared type. */
  lemma OptionMeans(option: string, p: Parameter)
    ensures OptionOk(option, p) <==> States(option, p.typ)
  {
    hide Trim, Find, IsSpace, TypeName;
    assert p.typ != OTHER_TYPE ==> TypeName(p.typ) != "" by {
      TypeNamed(p.typ);
    }
    if OptionOk(option, p) {
      assert Cuts(option, "jdbcType", TypeName(p.typ));
      CutGives(option, "jdbcType", TypeName(p.typ));
    }
    if States(option, p.typ) {
      GivenCuts(option, "jdbcType", TypeName(p.typ));
      assert Cuts(option, "jdbcType", TypeName(p.typ));
    }
  }

  lemma TypeNamed(t: Type)
    ensures t != OTHER_TYPE ==> TypeName(t) != ""
    ensures Without(TypeName(t), ',') && Without(TypeName(t), '}')
  {
    var a, b := "BIGINT", "VARCHAR";
    assert Without(a, ',') && Without(a, '}') && Without(b, ',') && Without(b, '}');
  }

  // ---- what stands between the braces ----

  /** It names the parameter, and may state its type, once; spaces may stand around every part. */
  ghost predicate Declares(body: string, p: Parameter) {
    && Property(p.name)
    && (Spaced(body, p.name)
        || exists head, option :: Spaced(head, p.name) && States(option, p.typ) && body == head + "," + option)
  }

  lemma SplitFirst(s: string)
    ensures match Find(s, ',')
            case None => Split(s) == [s]
            case Some(i) => Split(s)[0] == s[..i] && Split(s)[1..] == Split(s[i + 1..]) && |Split(s)| > 1
  {
    hide Find;
  }

  /** The first piece has no comma, and the others are those of the text behind its comma, if any. */
  lemma SplitMeans(s: string)
    ensures |Split(s)| == 1 ==> Without(s, ',') && Split(s)[0] == s
    ensures |Split(s)| > 1 ==> exists rest :: s == Split(s)[0] + "," + rest && Split(s)[1..] == Split(rest)
  {
    SplitFirst(s);
    FindMeans(s, ',');
    hide Split, Find, Without;
    if Find(s, ',').Some? {
      var i := Find(s, ',').value;
      assert s == s[..i] + "," + s[i + 1..];
    }
  }

  lemma SplitOne(s: string)
    requires Without(s, ',')
    ensures Split(s) == [s]
  {
    FindFirst(s, ',', "");
  }

  lemma SplitTwo(s: string, t: string)
    requires Without(s, ',') && Without(t, ',')
    ensures Split(s + "," + t) == [s, t]
  {
    FindFirst(s, ',', t);
    SplitOne(t);
    var whole := s + "," + t;
    assert whole == s + [','] + t && whole[..|s|] == s && whole[|s| + 1..] == t;
  }

  lemma SpacedWithout(text: string, core: string, c: char)
    requires Spaced(text, core) && Without(core, c) && !IsSpace(c)
    ensures Without(text, c)
  {
  }

  lemma GivenWithout(option: string, key: string, value: string, c: char)
    requires Gives(option, key, value) && Without(key, c) && Without(value, c) && !IsSpace(c) && c != '='
    ensures Without(option, c)
  {
    var k, v :| Spaced(k, key) && Spaced(v, value) && option == k + "=" + v;
    SpacedWithout(k, key, c);
    SpacedWithout(v, value, c);
    hide IsSpace, Spaced;
  }

  lemma StatedWithout(option: string, t: Type, c: char)
    requires States(option, t) && (c == ',' || c == '}')
    ensures Without(option, c)
  {
    TypeNamed(t);
    GivenWithout(option, "jdbcType", TypeName(t), c);
  }

  lemma NamedWithout(head: string, p: Parameter, c: char)
    requires Spaced(head, p.name) && Property(p.name) && (c == ',' || c == '}')
    ensures Without(head, c)
  {
    PropertyIsPlain(p.name, c);
    SpacedWithout(head, p.name, c);
  }

  lemma DeclaredIsOk(body: string, p: Parameter)
    requires Declares(body, p)
    ensures BodyOk(body, p) && Without(body, '}')
  {
    hide Split, Trim, PropertyFrom, PropertyRest, OptionOk, Spaced, States;
    PropertyFromMeans(p.name, true);
    if Spaced(body, p.name) {
      NamedWithout(body, p, ',');
      NamedWithout(body, p, '}');
      SplitOne(body);
      TrimMeans(body, p.name);
    } else {
      var head, option :| Spaced(head, p.name) && States(option, p.typ) && body == head + "," + option;
      NamedWithout(head, p, ',');
      NamedWithout(head, p, '}');
      StatedWithout(option, p.typ, ',');
      StatedWithout(option, p.typ, '}');
      SplitTwo(head, option);
      TrimMeans(head, p.name);
      OptionMeans(option, p);
      assert OptionsOk([option], false, p);
      assert [head, option][1..] == [option];
    }
  }

  lemma OkDeclares(body: string, p: Parameter)
    requires BodyOk(body, p)
    ensures Declares(body, p)
  {
    hide Split, Trim, PropertyFrom, PropertyRest, OptionOk, Spaced, States;
    var pieces := Split(body);
    PropertyFromMeans(p.name, true);
    TrimMeans(pieces[0], p.name);
    SplitMeans(body);
    if |pieces| > 1 {
      var rest :| body == pieces[0] + "," + rest && pieces[1..] == Split(rest);
      assert OptionsOk(pieces[1..], false, p);
      SplitMeans(rest);
      OptionMeans(rest, p);
    }
  }

  /** What stands between the braces is accepted for a parameter exactly when it declares it. */
  lemma BodyMeans(body: string, p: Parameter)
    ensures BodyOk(body, p) <==> Declares(body, p)
  {
    if BodyOk(body, p) {
      OkDeclares(body, p);
    }
    if Declares(body, p) {
      DeclaredIsOk(body, p);
    }
  }

  // ---- templates ----

  /** A chunk, then a placeholder and a chunk, and so on. */
  function Print(chunks: seq<string>, bodies: seq<string>): string
    requires |chunks| == |bodies| + 1
    decreases |bodies|
  {
    if bodies == [] then chunks[0] else chunks[0] + "#{" + bodies[0] + "}" + Print(chunks[1..], bodies[1..])
  }

  function Join(chunks: seq<string>): string
    requires chunks != []
  {
    if |chunks| == 1 then chunks[0] else chunks[0] + "?" + Join(chunks[1..])
  }

  /** The chunks open no placeholder, and the bodies do not close theirs. */
  ghost predicate Template(chunks: seq<string>, bodies: seq<string>) {
    && |chunks| == |bodies| + 1
    && (forall i :: 0 <= i < |chunks| ==> NoHole(chunks[i]))
    && (forall i :: 0 <= i < |bodies| ==> Without(bodies[i], '}'))
  }

  /** As many bodies as parameters, and each declares its own. */
  ghost predicate Agree(bodies: seq<string>, parameters: seq<Parameter>) {
    |bodies| == |parameters| && forall i :: 0 <= i < |bodies| ==> Declares(bodies[i], parameters[i])
  }

  lemma AgreeOneMore(bodies: seq<string>, parameters: seq<Parameter>)
    requires bodies != [] && parameters != []
    ensures Agree(bodies, parameters) <==> Declares(bodies[0], parameters[0]) && Agree(bodies[1..], parameters[1..])
  {
    hide Declares;
    if Declares(bodies[0], parameters[0]) && Agree(bodies[1..], parameters[1..]) {
      forall i | 0 <= i < |bodies| ensures Declares(bodies[i], parameters[i]) {
        assert i > 0 ==> Declares(bodies[1..][i - 1], parameters[1..][i - 1]);
      }
    }
  }

  lemma RewriteOneHole(chunk: string, body: string, rest: string, parameters: seq<Parameter>)
    requires NoHole(chunk) && Without(body, '}')
    ensures Rewrite(chunk + "#{" + body + "}" + rest, parameters)
         == if parameters == [] || !Declares(body, parameters[0]) || Rewrite(rest, parameters[1..]).None? then None
            else Some(chunk + "?" + Rewrite(rest, parameters[1..]).value)
  {
    var sql := chunk + "#{" + body + "}" + rest;
    var tail := body + "}" + rest;
    assert sql == chunk + "#{" + tail;
    HoleAfter(chunk, tail);
    assert sql[|chunk| + 2..] == tail && sql[..|chunk|] == chunk;
    if parameters != [] {
      BodyMeans(body, parameters[0]);
    }
    hide Declares, BodyOk;
    assert tail == body + ['}'] + rest;
    FindFirst(body, '}', rest);
    assert tail[..|body|] == body && tail[|body| + 1..] == rest;
  }

  /** Rewriting a printed template succeeds exactly when its placeholders declare the parameters, each
      its own, and then yields the chunks joined by `?`. */
  lemma {:induction false} RewritingUndoesPrinting(chunks: seq<string>, bodies: seq<string>, parameters: seq<Parameter>)
    requires Template(chunks, bodies)
    ensures Rewrite(Print(chunks, bodies), parameters) == if Agree(bodies, parameters) then Some(Join(chunks)) else None
    decreases |bodies|
  {
    hide Declares;
    if bodies == [] {
      HoleAfter(chunks[0], "");
    } else {
      RewriteOneHole(chunks[0], bodies[0], Print(chunks[1..], bodies[1..]), parameters);
      if parameters != [] {
        RewritingUndoesPrinting(chunks[1..], bodies[1..], parameters[1..]);
        AgreeOneMore(bodies, parameters);
      }
    }
  }

  /** Every text that is rewritten is a printed template. */
  lemma {:induction false} RewrittenIsPrinted(sql: string, parameters: seq<Parameter>) returns (chunks: seq<string>, bodies: seq<string>)
    requires Rewrite(sql, parameters).Some?
    ensures Template(chunks, bodies) && sql == Print(chunks, bodies)
    decreases |sql|
  {
    hide BodyOk, NoHole, Without, FindHole, Find, HoleAt, Template, Print;
    FindHoleMeans(sql);
    match FindHole(sql)
    case None =>
      chunks, bodies := [sql], [];
      PrintLast(sql);
    case Some(start) =>
      var rest := sql[start + 2..];
      FindMeans(rest, '}');
      var end := Find(rest, '}').value;
      var cs, bs := RewrittenIsPrinted(rest[end + 1..], parameters[1..]);
      chunks, bodies := [sql[..start]] + cs, [rest[..end]] + bs;
      CutAt(sql, start, end);
      PrintMore(sql[..start], rest[..end], cs, bs);
  }

  lemma PrintLast(chunk: string)
    requires NoHole(chunk)
    ensures Template([chunk], []) && Print([chunk], []) == chunk
  {
  }

  lemma CutAt(sql: string, start: nat, end: nat)
    requires start + 2 + end < |sql| && HoleAt(sql, start) && sql[start + 2..][end] == '}'
    ensures var rest := sql[start + 2..]; sql == sql[..start] + "#{" + rest[..end] + "}" + rest[end + 1..]
  {
  }

  lemma PrintMore(chunk: string, body: string, chunks: seq<string>, bodies: seq<string>)
    requires NoHole(chunk) && Without(body, '}') && Template(chunks, bodies)
    ensures Template([chunk] + chunks, [body] + bodies)
    ensures Print([chunk] + chunks, [body] + bodies) == chunk + "#{" + body + "}" + Print(chunks, bodies)
  {
    hide NoHole, Without;
    assert ([chunk] + chunks)[1..] == chunks && ([body] + bodies)[1..] == bodies;
  }

  /** The texts that are rewritten into `out`: the printed templates whose placeholders declare the
      parameters in their order, and whose chunks joined by `?` are `out`. */
  lemma RewritingMeans(sql: string, parameters: seq<Parameter>, out: string)
    ensures Rewrite(sql, parameters) == Some(out) <==>
              exists chunks, bodies :: Template(chunks, bodies) && Print(chunks, bodies) == sql && Agree(bodies, parameters) && Join(chunks) == out
  {
    hide Rewrite, Declares, NoHole, Without;
    if Rewrite(sql, parameters) == Some(out) {
      var chunks, bodies := RewrittenIsPrinted(sql, parameters);
      RewritingUndoesPrinting(chunks, bodies, parameters);
      assert Template(chunks, bodies);
    }
    if exists chunks, bodies :: Template(chunks, bodies) && Print(chunks, bodies) == sql && Agree(bodies, parameters) && Join(chunks) == out {
      var chunks, bodies :| Template(chunks, bodies) && Print(chunks, bodies) == sql && Agree(bodies, parameters) && Join(chunks) == out;
      RewritingUndoesPrinting(chunks, bodies, parameters);
    }
  }

  /** The same for the whole function, which refuses texts with a substitution or an escaped placeholder. */
  lemma MapperMeans(sql: string, parameters: seq<Parameter>, out: string)
    ensures MapperParameters(sql, parameters) == Some(out) <==>
              && !Occurs(sql, "${") && !Occurs(sql, "\\#{")
              && exists chunks, bodies :: Template(chunks, bodies) && Print(chunks, bodies) == sql && Agree(bodies, parameters) && Join(chunks) == out
  {
    ContainsMeans(sql, "${");
    ContainsMeans(sql, "\\#{");
    RewritingMeans(sql, parameters, out);
    hide Rewrite, Contains, Occurs, Template, Agree;
  }
}
