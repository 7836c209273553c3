/** Option, decimal text and the typed values of the contract `mysqlv1`. */
module Values {

  datatype Option<+T> = None | Some(value: T)

  const MIN_INT64 := -0x8000_0000_0000_0000
  const MAX_INT64 := 0x7fff_ffff_ffff_ffff

  predicate IsInt64(n: int) {
    MIN_INT64 <= n <= MAX_INT64
  }

  // ---- decimal text ----

  predicate IsDigit(c: char) {
    '0' <= c <= '9'
  }

  function DigitChar(d: nat): (c: char)
    requires d < 10
    ensures IsDigit(c) && c as int - '0' as int == d
  {
    ('0' as int + d) as char
  }

  function Natural(n: nat): (s: string)
    ensures |s| > 0 && forall i :: 0 <= i < |s| ==> IsDigit(s[i])
  {
    if n < 10 then [DigitChar(n)] else Natural(n / 10) + [DigitChar(n % 10)]
  }

  /** strconv.FormatInt(n, 10). */
  function Decimal(n: int): string {
    if n < 0 then "-" + Natural(-n) else Natural(n)
  }

  /** The number a nonempty string of digits denotes. */
  function ParseDigits(s: string): Option<nat> {
    if s == "" || !IsDigit(s[|s| - 1]) then None
    else
      var d := s[|s| - 1] as int - '0' as int;
      if |s| == 1 then Some(d)
      else
        match ParseDigits(s[..|s| - 1])
        case None => None
        case Some(n) => Some(n * 10 + d)
  }

  /** strconv.ParseInt(s, 10, 64): an optional sign, digits only, int64 range. */
  function ParseInt64(s: string): (r: Option<int>)
    ensures r.Some? ==> IsInt64(r.value)
  {
    if s == "" then None
    else
      var negative := s[0] == '-';
      var digits := if s[0] == '-' || s[0] == '+' then s[1..] else s;
      match ParseDigits(digits)
      case None => None
      case Some(n) =>
        var m: int := n;
        var v := if negative then -m else m;
        if IsInt64(v) then Some(v) else None
  }

  lemma {:induction false} NaturalRoundTrip(n: nat)
    ensures ParseDigits(Natural(n)) == Some(n)
  {
    if n >= 10 {
      NaturalRoundTrip(n / 10);
      var s := Natural(n);
      assert s[..|s| - 1] == Natural(n / 10);
    }
  }

  /** Parsing inverts formatting on the whole int64 range. */
  lemma DecimalRoundTrip(n: int)
    requires IsInt64(n)
    ensures ParseInt64(Decimal(n)) == Some(n)
  {
    var digits: nat := if n < 0 then -n else n;
    NaturalRoundTrip(digits);
    var s := Natural(digits);
    assert n < 0 ==> Decimal(n)[0] == '-' && Decimal(n)[1..] == s;
    assert n >= 0 ==> Decimal(n) == s && IsDigit(s[0]);
  }

  // ---- typed values ----

  datatype Type = BIGINT | VARCHAR | OTHER_TYPE

  /** The JSON payload of a value: `null`, a JSON string as the program writes it, one written in
      another way (`raw` is its text, with other escapes), or anything else (also what a missing map
      entry reads as). Equal payloads are equal as JSON texts. */
  datatype Data = Null | Text(chars: string) | Spelled(chars: string, raw: string) | Garbled

  datatype Value = Value(typ: Type, data: Data) {
    predicate IsNull() {
      data.Null?
    }

    /** Decoding `null` into a Go string succeeds and yields the empty string. */
    function AsString(): Option<string> {
      match data
      case Null => Some("")
      case Text(s) => Some(s)
      case Spelled(s, _) => Some(s)
      case Garbled => None
    }

    function AsInt64(): (r: Option<int>)
      ensures r.Some? ==> IsInt64(r.value)
    {
      match AsString()
      case None => None
      case Some(s) => ParseInt64(s)
    }
  }

  const ABSENT := Value(OTHER_TYPE, Garbled)

  datatype Column = Column(name: string, typ: Type, nullable: bool)

  function Int(n: int): Value {
    Value(BIGINT, Text(Decimal(n)))
  }

  function NullOf(typ: Type): Value {
    Value(typ, Null)
  }

  /** mysqlv1.ValidateValue. */
  predicate Fits(column: Column, value: Value) {
    && value.typ == column.typ
    && column.typ != OTHER_TYPE
    && match value.AsString()
       case None => false
       case Some(s) =>
         if value.IsNull() then column.nullable
         else column.typ == BIGINT ==> ParseInt64(s).Some? && Decimal(ParseInt64(s).value) == s
  }

  /** A value fits a column when it has its type, is NULL only where that is allowed, and otherwise has a
      text, which in a BIGINT column is an int64 as the program writes it. */
  lemma FitsMeans(column: Column, v: Value)
    ensures Fits(column, v) <==>
              && v.typ == column.typ && (column.typ == BIGINT || column.typ == VARCHAR)
              && (if v.data == Null then column.nullable
                  else v.AsString().Some? && (column.typ == BIGINT ==> exists n :: IsInt64(n) && v.AsString() == Some(Decimal(n))))
  {
    if v.AsString().Some? {
      var s := v.AsString().value;
      if n :| IsInt64(n) && s == Decimal(n) {
        DecimalRoundTrip(n);
      }
      if ParseInt64(s).Some? && Decimal(ParseInt64(s).value) == s {
        assert IsInt64(ParseInt64(s).value);
      }
    }
  }

  predicate EqualValue(a: Value, b: Value) {
    && a.typ == b.typ
    && a.IsNull() == b.IsNull()
    && (a.IsNull() || (a.AsString().Some? && a.AsString() == b.AsString()))
  }

  /** The same value, however its text is written. */
  predicate Alike(a: Value, b: Value) {
    a.typ == b.typ && a.IsNull() == b.IsNull() && a.AsString() == b.AsString()
  }

  /** The program's comparison decides it on every value it can read. */
  lemma EqualIsAlike(a: Value, b: Value)
    ensures EqualValue(a, b) <==> Alike(a, b) && a.AsString().Some?
  {
  }

  lemma IntIsExact(n: int)
    requires IsInt64(n)
    ensures Int(n).AsInt64() == Some(n)
    ensures Fits(Column("", BIGINT, false), Int(n))
  {
    DecimalRoundTrip(n);
  }

  // ---- total order of strings and values ----

  /** strings.Compare. */
  function CompareText(a: string, b: string): (c: int)
    ensures c == -1 || c == 0 || c == 1
    ensures c == 0 <==> a == b
  {
    if a == "" then (if b == "" then 0 else -1)
    else if b == "" then 1
    else if a[0] < b[0] then -1
    else if b[0] < a[0] then 1
    else
      assert a == [a[0]] + a[1..] && b == [b[0]] + b[1..];
      CompareText(a[1..], b[1..])
  }

  lemma {:induction false} CompareTextOrder(a: string, b: string, c: string)
    ensures CompareText(a, b) == -CompareText(b, a)
    ensures CompareText(a, b) <= 0 && CompareText(b, c) <= 0 ==> CompareText(a, c) <= 0
    ensures CompareText(a, b) < 0 && CompareText(b, c) <= 0 ==> CompareText(a, c) < 0
    ensures CompareText(a, b) <= 0 && CompareText(b, c) < 0 ==> CompareText(a, c) < 0
  {
    if a != "" && b != "" {
      CompareTextOrder(a[1..], b[1..], if c == "" then c else c[1..]);
    }
  }

  /** compareValue: NULL first, BIGINT by number, everything else by text. */
  function CompareValue(a: Value, b: Value): int {
    if a.IsNull() then (if b.IsNull() then 0 else -1)
    else if b.IsNull() then 1
    else if a.typ == BIGINT then
      var x := NumberOf(a);
      var y := NumberOf(b);
      if x < y then -1 else if x > y then 1 else 0
    else CompareText(TextOf(a), TextOf(b))
  }

  function NumberOf(v: Value): int {
    match v.AsInt64() case Some(n) => n case None => 0
  }

  function TextOf(v: Value): string {
    match v.AsString() case Some(s) => s case None => ""
  }
}
