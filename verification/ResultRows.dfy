/** Result rows on the wire: "Text Resultset Row" and "Binary Protocol Resultset Row" of the MySQL
    Client/Server Protocol. */
module ResultRows {
  import opened Values

  newtype byte = x: int | 0 <= x < 256

  /** A cell as it is handed to the encoder: BIGINT cells hold their number, VARCHAR cells the bytes
      of their text. */
  datatype Cell = NullCell | Number(n: int) | Bytes(bytes: seq<byte>)

  predicate OfType(typ: Type, c: Cell) {
    match c
    case NullCell => true
    case Number(n) => typ == BIGINT && IsInt64(n)
    case Bytes(b) => typ == VARCHAR && |b| < 0x1_0000_0000_0000_0000
  }

  /** ValidateValue: the cell has the type of its column, and NULL only where the column allows it. */
  predicate CellOk(column: Column, c: Cell) {
    column.typ != OTHER_TYPE && OfType(column.typ, c) && (c.NullCell? ==> column.nullable)
  }

  predicate RowOk(columns: seq<Column>, cells: seq<Cell>) {
    |columns| == |cells| && forall i :: 0 <= i < |cells| ==> CellOk(columns[i], cells[i])
  }

  // ---- little-endian integers ----

  function Pow256(k: nat): nat {
    if k == 0 then 1 else 256 * Pow256(k - 1)
  }

  function LittleEndian(u: nat, k: nat): (s: seq<byte>)
    ensures |s| == k
  {
    if k == 0 then [] else [(u % 256) as byte] + LittleEndian(u / 256, k - 1)
  }

  function FromLittleEndian(s: seq<byte>): nat {
    if s == [] then 0 else s[0] as nat + 256 * FromLittleEndian(s[1..])
  }

  lemma {:induction false} LittleEndianRoundTrip(u: nat, k: nat)
    requires u < Pow256(k)
    ensures FromLittleEndian(LittleEndian(u, k)) == u
  {
    if k > 0 {
      LittleEndianRoundTrip(u / 256, k - 1);
      assert LittleEndian(u, k)[1..] == LittleEndian(u / 256, k - 1);
    }
  }

  lemma Powers()
    ensures Pow256(2) == 0x1_0000 && Pow256(3) == 0x100_0000 && Pow256(8) == 0x1_0000_0000_0000_0000
  {
    assert Pow256(1) == 256 && Pow256(4) == 256 * Pow256(3) && Pow256(5) == 256 * Pow256(4);
    assert Pow256(6) == 256 * Pow256(5) && Pow256(7) == 256 * Pow256(6);
  }

  /** uint64(n). */
  function Unsigned(n: int): (u: nat)
    requires IsInt64(n)
    ensures u < 0x1_0000_0000_0000_0000
  {
    if n < 0 then n + 0x1_0000_0000_0000_0000 else n
  }

  function Signed(u: nat): int {
    if u < 0x8000_0000_0000_0000 then u else u - 0x1_0000_0000_0000_0000
  }

  lemma Int64RoundTrip(n: int)
    requires IsInt64(n)
    ensures Signed(FromLittleEndian(LittleEndian(Unsigned(n), 8))) == n
  {
    Powers();
    LittleEndianRoundTrip(Unsigned(n), 8);
  }

  // ---- length-encoded strings ----

  const NULL_CELL: byte := 0xfb

  /** Length-Encoded Integer. */
  function LengthPrefix(n: nat): (s: seq<byte>)
    requires n < 0x1_0000_0000_0000_0000
    ensures |s| > 0
  {
    if n <= 250 then [n as byte]
    else if n < 0x1_0000 then [0xfc] + LittleEndian(n, 2)
    else if n < 0x100_0000 then [0xfd] + LittleEndian(n, 3)
    else [0xfe] + LittleEndian(n, 8)
  }

  function LengthString(b: seq<byte>): (s: seq<byte>)
    requires |b| < 0x1_0000_0000_0000_0000
    ensures |s| > 0
  {
    LengthPrefix(|b|) + b
  }

  /** A decoded length with the number of bytes it took. */
  function ReadLength(s: seq<byte>): Option<(nat, nat)> {
    if s == [] then None
    else if s[0] <= 250 then Some((s[0] as nat, 1))
    else if s[0] == 0xfc then (if |s| < 3 then None else Some((FromLittleEndian(s[1..3]), 3)))
    else if s[0] == 0xfd then (if |s| < 4 then None else Some((FromLittleEndian(s[1..4]), 4)))
    else if s[0] == 0xfe then (if |s| < 9 then None else Some((FromLittleEndian(s[1..9]), 9)))
    else None
  }

  function ReadString(s: seq<byte>): Option<(seq<byte>, seq<byte>)> {
    match ReadLength(s)
    case None => None
    case Some((n, used)) => if used > |s| || |s| - used < n then None else Some((s[used..used + n], s[used + n..]))
  }

  /** The byte that stands for NULL in a text row never starts a length. */
  lemma PrefixIsNotNull(n: nat)
    requires n < 0x1_0000_0000_0000_0000
    ensures LengthPrefix(n)[0] != NULL_CELL && LengthPrefix(n)[0] != 0xff
  {
  }

  lemma LengthRoundTrip(n: nat, rest: seq<byte>)
    requires n < 0x1_0000_0000_0000_0000
    ensures ReadLength(LengthPrefix(n) + rest) == Some((n, |LengthPrefix(n)|))
  {
    Powers();
    var s := LengthPrefix(n) + rest;
    if 250 < n < 0x1_0000 {
      assert s[1..3] == LittleEndian(n, 2);
      LittleEndianRoundTrip(n, 2);
    } else if 0x1_0000 <= n < 0x100_0000 {
      assert s[1..4] == LittleEndian(n, 3);
      LittleEndianRoundTrip(n, 3);
    } else if 0x100_0000 <= n {
      assert s[1..9] == LittleEndian(n, 8);
      LittleEndianRoundTrip(n, 8);
    }
  }

  lemma StringRoundTrip(b: seq<byte>, rest: seq<byte>)
    requires |b| < 0x1_0000_0000_0000_0000
    ensures ReadString(LengthString(b) + rest) == Some((b, rest))
  {
    var p := LengthPrefix(|b|);
    assert LengthString(b) + rest == p + (b + rest);
    LengthRoundTrip(|b|, b + rest);
    var s := LengthString(b) + rest;
    assert s[|p|..|p| + |b|] == b && s[|p| + |b|..] == rest;
  }

  // ---- decimal text on the wire ----

  function Ascii(s: string): (b: seq<byte>)
    requires forall i :: 0 <= i < |s| ==> s[i] as int < 128
    ensures |b| == |s|
  {
    seq(|s|, i requires 0 <= i < |s| => s[i] as int as byte)
  }

  function Chars(b: seq<byte>): string {
    seq(|b|, i requires 0 <= i < |b| => b[i] as int as char)
  }

  lemma AsciiRoundTrip(s: string)
    requires forall i :: 0 <= i < |s| ==> s[i] as int < 128
    ensures Chars(Ascii(s)) == s
  {
  }

  lemma DecimalIsAscii(n: int)
    ensures forall i :: 0 <= i < |Decimal(n)| ==> Decimal(n)[i] as int < 128
  {
    if n < 0 {
      assert forall i :: 1 <= i < |Decimal(n)| ==> Decimal(n)[i] == Natural(-n)[i - 1];
    }
  }


  function Pow10(k: nat): nat {
    if k == 0 then 1 else 10 * Pow10(k - 1)
  }

  /** The decimal text of an int64, short enough for any length prefix. */
  function NumberText(n: int): (b: seq<byte>)
    requires IsInt64(n)
    ensures |b| < 0x1_0000_0000_0000_0000
  {
    DecimalIsAscii(n);
    DecimalIsShort(n);
    Ascii(Decimal(n))
  }

  lemma {:induction false} NaturalIsShort(n: nat, k: nat)
    requires n < Pow10(k) && k > 0
    ensures |Natural(n)| <= k
  {
    if n >= 10 {
      NaturalIsShort(n / 10, k - 1);
    }
  }

  lemma DecimalIsShort(n: int)
    requires IsInt64(n)
    ensures |Decimal(n)| <= 20
  {
    var m: nat := if n < 0 then -n else n;
    assert Pow10(4) == 10000 && Pow10(8) == 10000 * Pow10(4) && Pow10(12) == 10000 * Pow10(8);
    assert Pow10(16) == 10000 * Pow10(12) && Pow10(19) == 1000 * Pow10(16);
    NaturalIsShort(m, 19);
  }

  function ReadNumber(b: seq<byte>): Option<int> {
    ParseInt64(Chars(b))
  }

  lemma NumberTextRoundTrip(n: int)
    requires IsInt64(n)
    ensures ReadNumber(NumberText(n)) == Some(n)
  {
    DecimalIsAscii(n);
    AsciiRoundTrip(Decimal(n));
    DecimalRoundTrip(n);
  }

  // ---- bits ----

  predicate HasBit(x: nat, j: nat) {
    if j == 0 then x % 2 == 1 else HasBit(x / 2, j - 1)
  }

  /** x | 1 << j. */
  function WithBit(x: nat, j: nat): nat {
    if j == 0 then (if x % 2 == 1 then x else x + 1) else x % 2 + 2 * WithBit(x / 2, j - 1)
  }

  /** Setting a bit sets that bit and no other. */
  lemma {:induction false} WithBitSetsOne(x: nat, j: nat, k: nat)
    ensures HasBit(WithBit(x, j), k) <==> k == j || HasBit(x, k)
    decreases j
  {
    if j > 0 && k > 0 {
      assert WithBit(x, j) / 2 == WithBit(x / 2, j - 1);
      WithBitSetsOne(x / 2, j - 1, k - 1);
    } else if k > 0 {
      assert WithBit(x, 0) / 2 == x / 2;
    }
  }

  function Pow2(k: nat): nat {
    if k == 0 then 1 else 2 * Pow2(k - 1)
  }

  lemma Halves(x: nat, y: nat, half: nat)
    requires x < 2 * half
    ensures x / 2 < half && (y < half ==> x % 2 + 2 * y < 2 * half && 2 * y + 1 < 2 * half)
  {
  }

  lemma {:induction false} WithBitFits(x: nat, j: nat, k: nat)
    requires x < Pow2(k) && j < k
    ensures WithBit(x, j) < Pow2(k)
    decreases j
  {
    if j > 0 {
      Halves(x, WithBit(x / 2, j - 1), Pow2(k - 1));
      WithBitFits(x / 2, j - 1, k - 1);
    } else {
      Halves(x, x / 2, Pow2(k - 1));
    }
  }

  function SetBit(b: byte, j: nat): byte
    requires j < 8
  {
    assert Pow2(4) == 16 && Pow2(8) == 16 * Pow2(4);
    WithBitFits(b as nat, j, 8);
    WithBit(b as nat, j) as byte
  }

  // ---- the NULL bitmap: two reserved bits, then one bit a column ----

  function BitmapSize(n: nat): nat {
    (n + 9) / 8
  }

  predicate IsSet(bitmap: seq<byte>, k: nat)
    requires k < 8 * |bitmap|
  {
    HasBit(bitmap[k / 8] as nat, k % 8)
  }

  /** The bitmap after the first `i` cells. */
  function BitmapTo(cells: seq<Cell>, i: nat): (bitmap: seq<byte>)
    requires i <= |cells|
    ensures |bitmap| == BitmapSize(|cells|)
  {
    if i == 0 then seq(BitmapSize(|cells|), _ => 0)
    else
      var before := BitmapTo(cells, i - 1);
      var k := i - 1 + 2;
      if cells[i - 1].NullCell? then before[k / 8 := SetBit(before[k / 8], k % 8)] else before
  }

  lemma {:induction false} NoBit(k: nat)
    ensures !HasBit(0, k)
  {
    if k > 0 {
      NoBit(k - 1);
    }
  }

  /** Bit i + 2 is set exactly when column i is NULL; the reserved and the unused bits stay clear. */
  lemma {:induction false} BitmapMarksNulls(cells: seq<Cell>, i: nat, k: nat)
    requires i <= |cells| && k < 8 * BitmapSize(|cells|)
    ensures IsSet(BitmapTo(cells, i), k) <==> 2 <= k < i + 2 && cells[k - 2].NullCell?
  {
    if i == 0 {
      NoBit(k % 8);
    } else {
      BitmapMarksNulls(cells, i - 1, k);
      var before, m := BitmapTo(cells, i - 1), i - 1 + 2;
      if cells[i - 1].NullCell? && k / 8 == m / 8 {
        WithBitSetsOne(before[m / 8] as nat, m % 8, k % 8);
        assert k % 8 == m % 8 <==> k == m;
      }
    }
  }

  // ---- text rows ----

  function TextCell(c: Cell): (s: seq<byte>)
    requires OfType(BIGINT, c) || OfType(VARCHAR, c)
    ensures |s| > 0
  {
    match c
    case NullCell => [NULL_CELL]
    case Number(n) => LengthString(NumberText(n))
    case Bytes(b) => LengthString(b)
  }

  predicate Encodable(cells: seq<Cell>) {
    forall i :: 0 <= i < |cells| ==> OfType(BIGINT, cells[i]) || OfType(VARCHAR, cells[i])
  }

  /** The cells from the i-th on. */
  function TextFrom(cells: seq<Cell>, i: nat): seq<byte>
    requires Encodable(cells) && i <= |cells|
    decreases |cells| - i
  {
    if i == |cells| then [] else TextCell(cells[i]) + TextFrom(cells, i + 1)
  }

  function TextRow(cells: seq<Cell>): seq<byte>
    requires Encodable(cells)
  {
    TextFrom(cells, 0)
  }

  function ReadTextCell(typ: Type, s: seq<byte>): Option<(Cell, seq<byte>)> {
    if s == [] then None
    else if s[0] == NULL_CELL then Some((NullCell, s[1..]))
    else
      match ReadString(s)
      case None => None
      case Some((b, rest)) =>
        if typ != BIGINT then Some((Bytes(b), rest))
        else match ReadNumber(b) case None => None case Some(n) => Some((Number(n), rest))
  }

  function ReadTextFrom(columns: seq<Column>, i: nat, s: seq<byte>): Option<seq<Cell>>
    requires i <= |columns|
    decreases |columns| - i
  {
    if i == |columns| then (if s == [] then Some([]) else None)
    else
      match ReadTextCell(columns[i].typ, s)
      case None => None
      case Some((c, rest)) =>
        match ReadTextFrom(columns, i + 1, rest)
        case None => None
        case Some(cells) => Some([c] + cells)
  }

  /** Reads a whole text row: every column, and nothing left over. */
  function ReadTextRow(columns: seq<Column>, s: seq<byte>): Option<seq<Cell>> {
    ReadTextFrom(columns, 0, s)
  }

  lemma TextCellRoundTrip(typ: Type, c: Cell, rest: seq<byte>)
    requires OfType(typ, c)
    ensures ReadTextCell(typ, TextCell(c) + rest) == Some((c, rest))
  {
    match c
    case NullCell =>
      assert (TextCell(c) + rest)[1..] == rest;
    case Number(n) =>
      StringRoundTrip(NumberText(n), rest);
      NumberTextRoundTrip(n);
      PrefixIsNotNull(|NumberText(n)|);
    case Bytes(b) =>
      StringRoundTrip(b, rest);
      PrefixIsNotNull(|b|);
  }

  lemma {:induction false} TextFromRoundTrip(columns: seq<Column>, cells: seq<Cell>, i: nat)
    requires RowOk(columns, cells) && i <= |cells|
    ensures ReadTextFrom(columns, i, TextFrom(cells, i)) == Some(cells[i..])
    decreases |cells| - i
  {
    hide TextCell, ReadTextCell;
    if i < |cells| {
      TextFromRoundTrip(columns, cells, i + 1);
      TextCellRoundTrip(columns[i].typ, cells[i], TextFrom(cells, i + 1));
      assert TextFrom(cells, i) == TextCell(cells[i]) + TextFrom(cells, i + 1);
      FirstAndRest(cells, i);
    } else {
      assert cells[i..] == [];
    }
  }

  /** Decoding an encoded text row gives back the cells, for any columns and any NULLs. */
  lemma TextRowRoundTrip(columns: seq<Column>, cells: seq<Cell>)
    requires RowOk(columns, cells)
    ensures ReadTextRow(columns, TextRow(cells)) == Some(cells)
  {
    TextFromRoundTrip(columns, cells, 0);
    assert cells[0..] == cells;
  }

  // ---- binary rows ----

  function BinaryCell(c: Cell): seq<byte>
    requires OfType(BIGINT, c) || OfType(VARCHAR, c)
  {
    match c
    case NullCell => []
    case Number(n) => LittleEndian(Unsigned(n), 8)
    case Bytes(b) => LengthString(b)
  }

  function BinaryFrom(cells: seq<Cell>, i: nat): seq<byte>
    requires Encodable(cells) && i <= |cells|
    decreases |cells| - i
  {
    if i == |cells| then [] else BinaryCell(cells[i]) + BinaryFrom(cells, i + 1)
  }

  /** The header byte, the bitmap, and the values that are not NULL. */
  function BinaryRow(cells: seq<Cell>): seq<byte>
    requires Encodable(cells)
  {
    [0] + BitmapTo(cells, |cells|) + BinaryFrom(cells, 0)
  }

  function ReadBinaryCell(typ: Type, s: seq<byte>): Option<(Cell, seq<byte>)> {
    if typ == BIGINT then
      if |s| < 8 then None else Some((Number(Signed(FromLittleEndian(s[..8]))), s[8..]))
    else
      match ReadString(s)
      case None => None
      case Some((b, rest)) => Some((Bytes(b), rest))
  }

  function ReadBinaryValues(columns: seq<Column>, bitmap: seq<byte>, i: nat, s: seq<byte>): Option<seq<Cell>>
    requires i <= |columns| && |bitmap| == BitmapSize(|columns|)
    decreases |columns| - i
  {
    if i == |columns| then (if s == [] then Some([]) else None)
    else if IsSet(bitmap, i + 2) then
      match ReadBinaryValues(columns, bitmap, i + 1, s) case None => None case Some(cells) => Some([NullCell] + cells)
    else
      match ReadBinaryCell(columns[i].typ, s)
      case None => None
      case Some((c, rest)) =>
        match ReadBinaryValues(columns, bitmap, i + 1, rest) case None => None case Some(cells) => Some([c] + cells)
  }

  function ReadBinaryRow(columns: seq<Column>, s: seq<byte>): Option<seq<Cell>> {
    var n := 1 + BitmapSize(|columns|);
    if |s| < n || s[0] != 0 then None else ReadBinaryValues(columns, s[1..n], 0, s[n..])
  }

  lemma FirstAndRest(cells: seq<Cell>, i: nat)
    requires i < |cells|
    ensures [cells[i]] + cells[i + 1..] == cells[i..]
  {
  }

  lemma BinaryCellRoundTrip(typ: Type, c: Cell, rest: seq<byte>)
    requires OfType(typ, c) && !c.NullCell?
    ensures ReadBinaryCell(typ, BinaryCell(c) + rest) == Some((c, rest))
  {
    hide LittleEndian, FromLittleEndian;
    match c
    case Number(n) =>
      var word := LittleEndian(Unsigned(n), 8);
      assert (word + rest)[..8] == word && (word + rest)[8..] == rest;
      Int64RoundTrip(n);
    case Bytes(b) => StringRoundTrip(b, rest);
  }

  lemma {:induction false} BinaryFromRoundTrip(columns: seq<Column>, cells: seq<Cell>, i: nat)
    requires RowOk(columns, cells) && i <= |columns|
    ensures ReadBinaryValues(columns, BitmapTo(cells, |cells|), i, BinaryFrom(cells, i)) == Some(cells[i..])
    decreases |columns| - i
  {
    hide BitmapTo, BinaryCell, ReadBinaryCell, IsSet;
    var bitmap := BitmapTo(cells, |cells|);
    if i < |columns| {
      BinaryFromRoundTrip(columns, cells, i + 1);
      BitmapMarksNulls(cells, |cells|, i + 2);
      FirstAndRest(cells, i);
      if cells[i].NullCell? {
        NullTakesNoBytes(cells, i);
      } else {
        BinaryCellRoundTrip(columns[i].typ, cells[i], BinaryFrom(cells, i + 1));
      }
    } else {
      assert cells[i..] == [];
    }
  }

  /** Decoding an encoded binary row gives back the cells, for any number of columns, any NULLs and
      any 64-bit integers. */
  lemma BinaryRowRoundTrip(columns: seq<Column>, cells: seq<Cell>)
    requires RowOk(columns, cells)
    ensures ReadBinaryRow(columns, BinaryRow(cells)) == Some(cells)
  {
    var s, n := BinaryRow(cells), 1 + BitmapSize(|columns|);
    assert s[1..n] == BitmapTo(cells, |cells|) && s[n..] == BinaryFrom(cells, 0);
    assert cells[0..] == cells;
    BinaryFromRoundTrip(columns, cells, 0);
  }

  // ---- the encoder ----

  /** A buffer that starts with the header and a bitmap, followed by values. */
  predicate Framed(row: seq<byte>, bitmap: seq<byte>, values: seq<byte>) {
    row == [0] + bitmap + values
  }

  lemma FramedBit(row: seq<byte>, bitmap: seq<byte>, values: seq<byte>, k: nat, b: byte)
    requires Framed(row, bitmap, values) && k < |bitmap|
    ensures row[1 + k] == bitmap[k] && Framed(row[1 + k := b], bitmap[k := b], values)
  {
  }

  lemma FramedAppend(row: seq<byte>, bitmap: seq<byte>, values: seq<byte>, more: seq<byte>)
    requires Framed(row, bitmap, values)
    ensures Framed(row + more, bitmap, values + more)
  {
  }

  /** The loop of encodeResultset over one row in binary mode: bits are set in place in the buffer
      whose end the values are appended to. */
  method EncodeBinaryRow(columns: seq<Column>, cells: seq<Cell>) returns (row: seq<byte>)
    requires RowOk(columns, cells)
    ensures row == BinaryRow(cells)
  {
    hide Framed, BinaryCell, BitmapTo, SetBit;
    row := seq(1 + (|columns| + 9) / 8, _ => 0);
    ghost var values: seq<byte> := [];
    assert Framed(row, BitmapTo(cells, 0), values) by {
      StartFramed(cells, row);
    }
    for i := 0 to |cells|
      invariant Framed(row, BitmapTo(cells, i), values)
      invariant values + BinaryFrom(cells, i) == BinaryFrom(cells, 0)
    {
      if cells[i].NullCell? {
        var k := (i + 2) / 8;
        BitmapStep(cells, i);
        FramedBit(row, BitmapTo(cells, i), values, k, SetBit(BitmapTo(cells, i)[k], (i + 2) % 8));
        LongEnough(row, BitmapTo(cells, i), values);
        NullTakesNoBytes(cells, i);
        row := row[1 + k := SetBit(row[1 + k], (i + 2) % 8)];
      } else {
        var more := BinaryCell(cells[i]);
        BitmapStep(cells, i);
        FramedAppend(row, BitmapTo(cells, i), values, more);
        Regroup(values, more, BinaryFrom(cells, i + 1));
        row, values := row + more, values + more;
      }
    }
    EndFramed(cells, row, values);
  }

  lemma BitmapStep(cells: seq<Cell>, i: nat)
    requires i < |cells|
    ensures var k := (i + 2) / 8; var before := BitmapTo(cells, i);
            BitmapTo(cells, i + 1) == if cells[i].NullCell? then before[k := SetBit(before[k], (i + 2) % 8)] else before
  {
  }

  lemma NullTakesNoBytes(cells: seq<Cell>, i: nat)
    requires Encodable(cells) && i < |cells| && cells[i].NullCell?
    ensures BinaryFrom(cells, i) == BinaryFrom(cells, i + 1)
  {
  }

  lemma Regroup(a: seq<byte>, b: seq<byte>, c: seq<byte>)
    ensures a + (b + c) == (a + b) + c
  {
  }

  lemma StartFramed(cells: seq<Cell>, row: seq<byte>)
    requires row == seq(1 + (|cells| + 9) / 8, _ => 0)
    ensures Framed(row, BitmapTo(cells, 0), [])
  {
    var clear: seq<byte> := seq(BitmapSize(|cells|), _ => 0);
    assert BitmapTo(cells, 0) == clear && row == [0] + clear;
  }

  lemma LongEnough(row: seq<byte>, bitmap: seq<byte>, values: seq<byte>)
    requires Framed(row, bitmap, values)
    ensures |row| >= 1 + |bitmap|
  {
  }

  lemma EndFramed(cells: seq<Cell>, row: seq<byte>, values: seq<byte>)
    requires Encodable(cells) && Framed(row, BitmapTo(cells, |cells|), values)
    requires values + BinaryFrom(cells, |cells|) == BinaryFrom(cells, 0)
    ensures row == BinaryRow(cells)
  {
  }

  /** The same loop in text mode. */
  method EncodeTextRow(columns: seq<Column>, cells: seq<Cell>) returns (row: seq<byte>)
    requires RowOk(columns, cells)
    ensures row == TextRow(cells)
  {
    hide TextCell;
    row := [];
    for i := 0 to |cells|
      invariant row + TextFrom(cells, i) == TextFrom(cells, 0)
    {
      var more := TextCell(cells[i]);
      Regroup(row, more, TextFrom(cells, i + 1));
      row := row + more;
    }
  }

  function Encoded(cells: seq<Cell>, binaryMode: bool): seq<byte>
    requires Encodable(cells)
  {
    if binaryMode then BinaryRow(cells) else TextRow(cells)
  }

  method EncodeRow(columns: seq<Column>, cells: seq<Cell>, binaryMode: bool) returns (row: seq<byte>)
    requires RowOk(columns, cells)
    ensures row == Encoded(cells, binaryMode)
  {
    if binaryMode {
      row := EncodeBinaryRow(columns, cells);
    } else {
      row := EncodeTextRow(columns, cells);
    }
  }

  // ---- a whole result ----

  /** The cell has a value its column may hold: NULL where that is allowed, an int64 in a BIGINT column, a
      text in a VARCHAR column. */
  ghost predicate Belongs(column: Column, c: Cell) {
    match c
    case NullCell => column.nullable
    case Number(n) => column.typ == BIGINT && MIN_INT64 <= n <= MAX_INT64
    case Bytes(b) => column.typ == VARCHAR && |b| < 0x1_0000_0000_0000_0000
  }

  /** At most 1000 rows and 1 MiB of JSON text, every row with a cell that belongs for every column, and
      columns of the two known types. */
  ghost predicate Sendable(columns: seq<Column>, rows: seq<seq<Cell>>, size: nat) {
    && |rows| <= 1000 && size <= 1_048_576
    && (forall j :: 0 <= j < |columns| ==> columns[j].typ == BIGINT || columns[j].typ == VARCHAR)
    && forall i :: 0 <= i < |rows| ==>
         |rows[i]| == |columns| && forall j :: 0 <= j < |columns| ==> Belongs(columns[j], rows[i][j])
  }

  /** Who reads the row in the mode it was asked for in gets the cells. */
  ghost predicate Decodes(columns: seq<Column>, row: seq<byte>, cells: seq<Cell>, binaryMode: bool) {
    (if binaryMode then ReadBinaryRow(columns, row) else ReadTextRow(columns, row)) == Some(cells)
  }

  const MAX_ROWS := 1000
  const MAX_SIZE := 0x10_0000

  method ValidateRow(columns: seq<Column>, cells: seq<Cell>) returns (ok: bool)
    ensures ok <==> RowOk(columns, cells)
  {
    if |cells| != |columns| {
      return false;
    }
    for j := 0 to |cells|
      invariant forall k :: 0 <= k < j ==> CellOk(columns[k], cells[k])
    {
      if !CellOk(columns[j], cells[j]) {
        return false;
      }
    }
    ok := true;
  }

  /** ValidateRows; `size` is the length of the JSON text of the rows. */
  method ValidateRows(columns: seq<Column>, rows: seq<seq<Cell>>, size: nat) returns (ok: bool)
    ensures ok <==> |rows| <= MAX_ROWS && size <= MAX_SIZE && forall i :: 0 <= i < |rows| ==> RowOk(columns, rows[i])
  {
    hide RowOk;
    if |rows| > MAX_ROWS || size > MAX_SIZE {
      return false;
    }
    for i := 0 to |rows|
      invariant forall k :: 0 <= k < i ==> RowOk(columns, rows[k])
    {
      var one := ValidateRow(columns, rows[i]);
      if !one {
        return false;
      }
    }
    ok := true;
  }

  /** wireField: the column types there are. */
  method WireFields(columns: seq<Column>) returns (ok: bool)
    ensures ok <==> forall j :: 0 <= j < |columns| ==> columns[j].typ == BIGINT || columns[j].typ == VARCHAR
  {
    for j := 0 to |columns|
      invariant forall k :: 0 <= k < j ==> columns[k].typ == BIGINT || columns[k].typ == VARCHAR
    {
      if columns[j].typ != BIGINT && columns[j].typ != VARCHAR {
        return false;
      }
    }
    ok := true;
  }

  lemma SendableRows(columns: seq<Column>, rows: seq<seq<Cell>>)
    requires forall j :: 0 <= j < |columns| ==> columns[j].typ == BIGINT || columns[j].typ == VARCHAR
    ensures (forall i :: 0 <= i < |rows| ==> RowOk(columns, rows[i]))
       <==> forall i :: 0 <= i < |rows| ==>
              |rows[i]| == |columns| && forall j :: 0 <= j < |columns| ==> Belongs(columns[j], rows[i][j])
  {
    forall i | 0 <= i < |rows|
      ensures RowOk(columns, rows[i])
         <==> |rows[i]| == |columns| && forall j :: 0 <= j < |columns| ==> Belongs(columns[j], rows[i][j])
    {
      assert |rows[i]| == |columns| ==> forall j :: 0 <= j < |columns| ==> (CellOk(columns[j], rows[i][j]) <==> Belongs(columns[j], rows[i][j]));
    }
    hide RowOk, Belongs;
  }

  /** encodeResultset: refuses exactly what cannot be sent, and of everything else sends each row so
      that it is read back cell by cell. */
  method EncodeResultset(columns: seq<Column>, rows: seq<seq<Cell>>, size: nat, binaryMode: bool)
    returns (data: Option<seq<seq<byte>>>)
    ensures data.Some? <==> Sendable(columns, rows, size)
    ensures data.Some? ==> |data.value| == |rows| && forall i :: 0 <= i < |rows| ==> Decodes(columns, data.value[i], rows[i], binaryMode)
  {
    hide Decodes, RowOk, Belongs;
    var valid := ValidateRows(columns, rows, size);
    var wired := WireFields(columns);
    if wired {
      SendableRows(columns, rows);
    }
    if !valid || !wired {
      return None;
    }
    var out := EncodeAll(columns, rows, binaryMode);
    data := Some(out);
  }

  method EncodeAll(columns: seq<Column>, rows: seq<seq<Cell>>, binaryMode: bool) returns (out: seq<seq<byte>>)
    requires forall i :: 0 <= i < |rows| ==> RowOk(columns, rows[i])
    ensures |out| == |rows|
    ensures forall i :: 0 <= i < |rows| ==> Decodes(columns, out[i], rows[i], binaryMode)
  {
    hide Encoded, Decodes, RowOk;
    out := [];
    for i := 0 to |rows|
      invariant |out| == i
      invariant forall j :: 0 <= j < i ==> Decodes(columns, out[j], rows[j], binaryMode)
    {
      var row := EncodeRow(columns, rows[i], binaryMode);
      EncodedDecodes(columns, rows[i], binaryMode);
      out := out + [row];
    }
  }

  lemma EncodedDecodes(columns: seq<Column>, cells: seq<Cell>, binaryMode: bool)
    requires RowOk(columns, cells)
    ensures Encodable(cells) && Decodes(columns, Encoded(cells, binaryMode), cells, binaryMode)
  {
    if binaryMode {
      BinaryRowRoundTrip(columns, cells);
    } else {
      TextRowRoundTrip(columns, cells);
    }
  }

  // ---- the bytes themselves ----

  lemma QuotientIs(u: int, d: int, q: int, r: int)
    requires 0 <= r < d && u == q * d + r
    ensures u / d == q
  {
    var e := u / d - q;
    assert u == (u / d) * d + u % d;
    assert e * d == r - u % d by {
      assert e * d == (u / d) * d - q * d;
    }
    assert e >= 1 ==> e * d >= d;
    assert e <= -1 ==> e * d <= -d;
  }

  lemma DivideTwice(u: int, p: int)
    requires p > 0 && u >= 0
    ensures (u / 256) / p == u / (256 * p)
  {
    var a := u / 256;
    var b, r := a / p, a % p;
    assert a == b * p + r;
    var rest := 256 * r + u % 256;
    assert u == b * (256 * p) + rest by {
      assert b * (256 * p) == 256 * (b * p);
    }
    QuotientIs(u, 256 * p, b, rest);
  }

  lemma {:induction false} PowPositive(k: nat)
    ensures Pow256(k) > 0
  {
    if k > 0 {
      PowPositive(k - 1);
    }
  }

  /** Least significant byte first. */
  lemma {:induction false} ByteAt(u: nat, k: nat, i: nat)
    requires i < k
    ensures Pow256(i) > 0 && LittleEndian(u, k)[i] as nat == (u / Pow256(i)) % 256
  {
    PowPositive(i);
    if i > 0 {
      ByteAt(u / 256, k - 1, i - 1);
      DivideTwice(u, Pow256(i - 1));
    }
  }
}
