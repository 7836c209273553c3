/** MyBatis placeholders: rewriting `#{name}` to `?`. */
module Mapper {
  import opened Values
  import opened CompilerSpec

  // ---- text ----

  /** unicode.IsSpace. */
  predicate IsSpace(c: char) {
    var n := c as int;
    || 9 <= n <= 13 || n == 0x20 || n == 0x85 || n == 0xa0 || n == 0x1680 || 0x2000 <= n <= 0x200a
    || n == 0x2028 || n == 0x2029 || n == 0x202f || n == 0x205f || n == 0x3000
  }

  function TrimLeft(s: string): string {
    if s != "" && IsSpace(s[0]) then TrimLeft(s[1..]) else s
  }

  function TrimRight(s: string): string {
    if s != "" && IsSpace(s[|s| - 1]) then TrimRight(s[..|s| - 1]) else s
  }

  /** strings.TrimSpace. */
  function Trim(s: string): string {
    TrimRight(TrimLeft(s))
  }

  /** strings.IndexByte. */
  function Find(s: string, c: char): (r: Option<nat>)
    ensures r.Some? ==> r.value < |s| && s[r.value] == c
  {
    if s == "" then None
    else if s[0] == c then Some(0)
    else match Find(s[1..], c) case None => None case Some(i) => Some(i + 1)
  }

  /** strings.Index(s, "#{"). */
  function FindHole(s: string): (r: Option<nat>)
    ensures r.Some? ==> r.value + 2 <= |s|
  {
    if |s| < 2 then None
    else if s[0] == '#' && s[1] == '{' then Some(0)
    else match FindHole(s[1..]) case None => None case Some(i) => Some(i + 1)
  }

  /** strings.Split by commas. */
  function Split(s: string): (pieces: seq<string>)
    ensures |pieces| > 0
    decreases |s|
  {
    match Find(s, ',')
    case None => [s]
    case Some(i) => [s[..i]] + Split(s[i + 1..])
  }

  predicate IdentStart(c: char) {
    'A' <= c <= 'Z' || 'a' <= c <= 'z' || c == '_' || c == '$'
  }

  predicate IdentPart(c: char) {
    IdentStart(c) || '0' <= c <= '9'
  }

  /** Identifiers joined by dots; `start` when an identifier must start here. */
  predicate PropertyFrom(s: string, start: bool) {
    if s == "" then !start
    else if start then IdentStart(s[0]) && PropertyFrom(s[1..], false)
    else if s[0] == '.' then PropertyFrom(s[1..], true)
    else IdentPart(s[0]) && PropertyFrom(s[1..], false)
  }

  predicate IsProperty(s: string) {
    PropertyFrom(s, true)
  }

  predicate Contains(s: string, part: string) {
    part <= s || (s != "" && Contains(s[1..], part))
  }

  // ---- the rewriting ----

  function TypeName(t: Type): string {
    match t case BIGINT => "BIGINT" case VARCHAR => "VARCHAR" case OTHER_TYPE => ""
  }

  /** `jdbcType=T` with the declared type, spaces allowed around every part. */
  predicate OptionOk(piece: string, p: Parameter) {
    var text := Trim(piece);
    match Find(text, '=')
    case None => false
    case Some(i) => Trim(text[..i]) == "jdbcType" && p.typ != OTHER_TYPE && Trim(text[i + 1..]) == TypeName(p.typ)
  }

  /** Every option is the jdbcType, given at most once. */
  predicate OptionsOk(pieces: seq<string>, seen: bool, p: Parameter) {
    pieces == [] || (!seen && OptionOk(pieces[0], p) && OptionsOk(pieces[1..], true, p))
  }

  /** What stands between the braces declares the parameter. */
  predicate BodyOk(body: string, p: Parameter) {
    var pieces := Split(body);
    var property := Trim(pieces[0]);
    IsProperty(property) && property == p.name && OptionsOk(pieces[1..], false, p)
  }

  /** The rest of the text against the parameters still to come. */
  function Rewrite(sql: string, parameters: seq<Parameter>): Option<string>
    decreases |sql|
  {
    match FindHole(sql)
    case None => if parameters == [] then Some(sql) else None
    case Some(start) =>
      var rest := sql[start + 2..];
      match Find(rest, '}')
      case None => None
      case Some(end) =>
        if parameters == [] || !BodyOk(rest[..end], parameters[0]) then None
        else
          match Rewrite(rest[end + 1..], parameters[1..])
          case None => None
          case Some(tail) => Some(sql[..start] + "?" + tail)
  }

  /** mapperParameters. */
  function MapperParameters(sql: string, parameters: seq<Parameter>): Option<string> {
    if Contains(sql, "${") || Contains(sql, "\\#{") then None else Rewrite(sql, parameters)
  }

  // ---- the loop ----

  /** mapperParameters: consumes the text hole by hole; each round leaves a shorter rest. */
  method RenderMapper(text: string, parameters: seq<Parameter>) returns (r: Option<string>)
    ensures r == MapperParameters(text, parameters)
  {
    hide Rewrite, Find, FindHole, Contains, BodyOk, Prefixed;
    if Contains(text, "${") || Contains(text, "\\#{") {
      return None;
    }
    var sql, result, index := text, "", 0;
    PrefixedNothing(Rewrite(text, parameters));
    assert parameters[0..] == parameters;
    while true
      invariant 0 <= index <= |parameters|
      invariant Rewrite(text, parameters) == Prefixed(result, Rewrite(sql, parameters[index..]))
      decreases |sql|
    {
      var start := FindHole(sql);
      RewriteNext(sql, parameters[index..]);
      PrefixedParts(result, Rewrite(sql, parameters[index..]));
      if start.None? {
        if index != |parameters| {
          return None;
        }
        return Some(result + sql);
      }
      var rest := sql[start.value + 2..];
      var end := Find(rest, '}');
      if end.None? {
        return None;
      }
      if index >= |parameters| || !BodyOk(rest[..end.value], parameters[index]) {
        return None;
      }
      assert parameters[index..][0] == parameters[index] && parameters[index..][1..] == parameters[index + 1..];
      PrefixedTwice(result, sql[..start.value] + "?", Rewrite(rest[end.value + 1..], parameters[index + 1..]));
      result := result + (sql[..start.value] + "?");
      sql, index := rest[end.value + 1..], index + 1;
    }
  }

  /** One round on the text `sql`, with the parameters still to come. */
  lemma RewriteNext(sql: string, parameters: seq<Parameter>)
    ensures Rewrite(sql, parameters) ==
      match FindHole(sql)
      case None => (if parameters == [] then Some(sql) else None)
      case Some(start) =>
        match Find(sql[start + 2..], '}')
        case None => None
        case Some(end) =>
          if parameters == [] || !BodyOk(sql[start + 2..][..end], parameters[0]) then None
          else Prefixed(sql[..start] + "?", Rewrite(sql[start + 2..][end + 1..], parameters[1..]))
  {
    hide Find, FindHole, BodyOk;
  }

  lemma PrefixedParts(before: string, tail: Option<string>)
    ensures Prefixed(before, tail) == if tail.None? then None else Some(before + tail.value)
  {
  }

  function Prefixed(before: string, tail: Option<string>): Option<string> {
    match tail case None => None case Some(t) => Some(before + t)
  }

  lemma PrefixedNothing(tail: Option<string>)
    ensures Prefixed("", tail) == tail
  {
    if tail.Some? {
      assert "" + tail.value == tail.value;
    }
  }

  lemma PrefixedTwice(a: string, b: string, tail: Option<string>)
    ensures Prefixed(a, Prefixed(b, tail)) == Prefixed(a + b, tail)
  {
    if tail.Some? {
      assert a + (b + tail.value) == (a + b) + tail.value;
    }
  }
}
