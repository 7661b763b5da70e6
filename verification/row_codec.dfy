/** The byte stream that a table digest is taken of: typed, length-framed, and uniquely decodable.

    Two tables with the same digest therefore hold the same rows, given that the hash itself does
    not collide. */
module RowCodec {
  import opened Wrappers

  type Byte = b: int | 0 <= b < 256

  /** The five storage classes. A real is its 64-bit pattern; a text is its UTF-8 bytes. */
  datatype Value =
    | Null
    | Integer(n: int)
    | Real(bits: nat)
    | Text(utf8: seq<Byte>)
    | Blob(data: seq<Byte>)

  type Row = seq<Value>

  const TWO_TO_63 := 0x8000_0000_0000_0000
  const TWO_TO_64 := 0x1_0000_0000_0000_0000

  /** What the database can hold in a column. */
  predicate Storable(v: Value) {
    match v
    case Null => true
    case Integer(n) => -TWO_TO_63 <= n < TWO_TO_63
    case Real(bits) => bits < TWO_TO_64
    case Text(utf8) => |utf8| < TWO_TO_64
    case Blob(data) => |data| < TWO_TO_64
  }

  predicate StorableRow(row: Row) {
    |row| < TWO_TO_64 && forall v <- row :: Storable(v)
  }

  // ---------------------------------------------------------------- big-endian words

  function Limit(k: nat): nat {
    if k == 0 then 1 else 256 * Limit(k - 1)
  }

  /** n in k bytes, most significant first. */
  function Bytes(n: nat, k: nat): (r: seq<Byte>)
    ensures |r| == k
  {
    if k == 0 then [] else Bytes(n / 256, k - 1) + [n % 256]
  }

  function Number(bs: seq<Byte>): (n: nat)
    ensures n < Limit(|bs|)
  {
    if bs == [] then 0 else Number(bs[..|bs| - 1]) * 256 + bs[|bs| - 1]
  }

  lemma {:induction false} NumberOfBytes(n: nat, k: nat)
    requires n < Limit(k)
    ensures Number(Bytes(n, k)) == n
  {
    if k > 0 {
      NumberOfBytes(n / 256, k - 1);
      assert Bytes(n, k)[..k - 1] == Bytes(n / 256, k - 1);
    }
  }

  lemma {:induction false} BytesOfNumber(bs: seq<Byte>)
    ensures Bytes(Number(bs), |bs|) == bs
  {
    if bs != [] {
      BytesOfNumber(bs[..|bs| - 1]);
      assert bs == bs[..|bs| - 1] + [bs[|bs| - 1]];
    }
  }

  lemma LimitOfWord()
    ensures Limit(8) == TWO_TO_64
  {
    assert Limit(4) == 0x1_0000_0000;
  }

  function Word(n: nat): seq<Byte> { Bytes(n, 8) }

  /** Two's complement in 64 bits. */
  function Unsigned(n: int): nat
    requires -TWO_TO_63 <= n < TWO_TO_63
  {
    if n < 0 then n + TWO_TO_64 else n
  }

  function Signed(u: nat): int {
    if u < TWO_TO_63 then u else u - TWO_TO_64
  }

  // ---------------------------------------------------------------- encoding

  const ROW: Byte := 82
  const NULL: Byte := 78
  const INTEGER: Byte := 73
  const REAL: Byte := 70
  const TEXT: Byte := 84
  const BLOB: Byte := 66

  function EncodeValue(v: Value): seq<Byte>
    requires Storable(v)
  {
    match v
    case Null => [NULL]
    case Integer(n) => [INTEGER] + Word(Unsigned(n))
    case Real(bits) => [REAL] + Word(bits)
    case Text(utf8) => [TEXT] + Word(|utf8|) + utf8
    case Blob(data) => [BLOB] + Word(|data|) + data
  }

  function EncodeValues(row: Row): seq<Byte>
    requires forall v <- row :: Storable(v)
  {
    if row == [] then [] else EncodeValue(row[0]) + EncodeValues(row[1..])
  }

  function EncodeRow(row: Row): seq<Byte>
    requires StorableRow(row)
  {
    [ROW] + Word(|row|) + EncodeValues(row)
  }

  /** What is fed to the hash for a table. */
  function Stream(rows: seq<Row>): seq<Byte>
    requires forall row <- rows :: StorableRow(row)
  {
    if rows == [] then [] else EncodeRow(rows[0]) + Stream(rows[1..])
  }

  /** The hash object: what it has been fed. */
  class Hash {
    var fed: seq<Byte>

    constructor ()
      ensures fed == []
    {
      fed := [];
    }

    method Update(data: seq<Byte>)
      modifies this
      ensures fed == old(fed) + data
    {
      fed := fed + data;
    }
  }

  method UpdateValue(h: Hash, v: Value)
    requires Storable(v)
    modifies h
    ensures h.fed == old(h.fed) + EncodeValue(v)
  {
    hide Word, Unsigned;
    match v
    case Null => h.Update([NULL]);
    case Integer(n) => h.Update([INTEGER] + Word(Unsigned(n)));
    case Real(bits) => h.Update([REAL] + Word(bits));
    case Text(utf8) => h.Update([TEXT] + Word(|utf8|) + utf8);
    case Blob(data) => h.Update([BLOB] + Word(|data|) + data);
  }

  method UpdateDigest(h: Hash, row: Row)
    requires StorableRow(row)
    modifies h
    ensures h.fed == old(h.fed) + EncodeRow(row)
  {
    hide Word, EncodeValue, EncodeValues, Storable;
    ghost var whole := old(h.fed) + EncodeRow(row);
    assert row[0..] == row;
    h.Update([ROW] + Word(|row|));
    assert h.fed + EncodeValues(row) == whole;
    var i := 0;
    while i < |row|
      invariant 0 <= i <= |row|
      invariant h.fed + EncodeValues(row[i..]) == whole
    {
      ValuesFrom(row, i);
      UpdateValue(h, row[i]);
      i := i + 1;
    }
    ValuesEnd(row);
  }

  lemma ValuesFrom(row: Row, i: nat)
    requires i < |row| && StorableRow(row)
    ensures EncodeValues(row[i..]) == EncodeValue(row[i]) + EncodeValues(row[i + 1..])
  {
    assert row[i..][1..] == row[i + 1..];
  }

  lemma ValuesEnd(row: Row)
    requires StorableRow(row)
    ensures EncodeValues(row[|row|..]) == []
  {
  }

  lemma KnownWords()
    ensures Word(0) == [0, 0, 0, 0, 0, 0, 0, 0] && Word(2) == [0, 0, 0, 0, 0, 0, 0, 2]
    ensures Word(5) == [0, 0, 0, 0, 0, 0, 0, 5] && Word(258) == [0, 0, 0, 0, 0, 0, 1, 2]
    ensures Word(Unsigned(-2)) == [255, 255, 255, 255, 255, 255, 255, 254]
  {
  }

  /** One value of each kind, byte by byte. */
  lemma KnownValues()
    ensures EncodeValue(Null) == [78]
    ensures EncodeValue(Integer(-2)) == [73, 255, 255, 255, 255, 255, 255, 255, 254]
    ensures EncodeValue(Real(258)) == [70, 0, 0, 0, 0, 0, 0, 1, 2]
    ensures EncodeValue(Text([97, 98])) == [84, 0, 0, 0, 0, 0, 0, 0, 2, 97, 98]
    ensures EncodeValue(Blob([])) == [66, 0, 0, 0, 0, 0, 0, 0, 0]
  {
    KnownWords();
    hide Word, Unsigned;
  }

  lemma ValuesSplit(v: Value, rest: Row)
    requires Storable(v) && forall w <- rest :: Storable(w)
    ensures EncodeValues([v] + rest) == EncodeValue(v) + EncodeValues(rest)
  {
    assert ([v] + rest)[1..] == rest;
    hide EncodeValue, Storable;
  }

  /** And a row: its mark, its length, and its values. */
  lemma KnownRow(row: Row)
    requires StorableRow(row)
    ensures EncodeRow(row)[0] == 82 && EncodeRow(row)[1..9] == Word(|row|)
    ensures EncodeRow(row)[9..] == EncodeValues(row)
  {
    EncodedParts(Word(|row|), EncodeValues(row));
    hide Word, EncodeValues, Storable;
  }

  lemma EncodedParts(word: seq<Byte>, values: seq<Byte>)
    requires |word| == 8
    ensures var all := [ROW] + word + values;
      all[0] == ROW && all[1..9] == word && all[9..] == values
  {
  }

  // ---------------------------------------------------------------- decoding

  datatype Parsed<T> = Parsed(item: T, rest: seq<Byte>)

  /** A word and what follows it. */
  function ParseWord(s: seq<Byte>): Option<Parsed<nat>> {
    if |s| < 8 then None else Some(Parsed(Number(s[..8]), s[8..]))
  }

  /** A length and that many bytes. */
  function ParseFrame(s: seq<Byte>): Option<Parsed<seq<Byte>>> {
    var w := ParseWord(s);
    if w.None? || |w.value.rest| < w.value.item then None
    else Some(Parsed(w.value.rest[..w.value.item], w.value.rest[w.value.item..]))
  }

  function ParseValue(s: seq<Byte>): (r: Option<Parsed<Value>>)
    ensures r.Some? ==> |r.value.rest| < |s|
  {
    if s == [] then None
    else if s[0] == NULL then Some(Parsed(Null, s[1..]))
    else if s[0] == INTEGER || s[0] == REAL then
      var w := ParseWord(s[1..]);
      if w.None? then None
      else Some(Parsed(if s[0] == INTEGER then Integer(Signed(w.value.item)) else Real(w.value.item), w.value.rest))
    else if s[0] == TEXT || s[0] == BLOB then
      var f := ParseFrame(s[1..]);
      if f.None? then None
      else Some(Parsed(if s[0] == TEXT then Text(f.value.item) else Blob(f.value.item), f.value.rest))
    else None
  }

  function ParseValues(s: seq<Byte>, n: nat): (r: Option<Parsed<Row>>)
    ensures r.Some? ==> |r.value.rest| <= |s| && |r.value.item| == n
  {
    if n == 0 then Some(Parsed([], s))
    else
      var v := ParseValue(s);
      if v.None? then None
      else
        var more := ParseValues(v.value.rest, n - 1);
        if more.None? then None else Some(Parsed([v.value.item] + more.value.item, more.value.rest))
  }

  function ParseRow(s: seq<Byte>): (r: Option<Parsed<Row>>)
    ensures r.Some? ==> |r.value.rest| < |s|
  {
    if s == [] || s[0] != ROW then None
    else
      var n := ParseWord(s[1..]);
      if n.None? then None else ParseValues(n.value.rest, n.value.item)
  }

  function Parse(s: seq<Byte>): Option<seq<Row>>
    decreases |s|
  {
    if s == [] then Some([])
    else
      var row := ParseRow(s);
      if row.None? then None
      else
        var more := Parse(row.value.rest);
        if more.None? then None else Some([row.value.item] + more.value)
  }

  // ---------------------------------------------------------------- decoding undoes encoding

  lemma ParseWordOf(n: nat, tail: seq<Byte>)
    requires n < TWO_TO_64
    ensures ParseWord(Word(n) + tail) == Some(Parsed(n, tail))
  {
    LimitOfWord();
    NumberOfBytes(n, 8);
    assert (Word(n) + tail)[..8] == Word(n) && (Word(n) + tail)[8..] == tail;
  }

  lemma ParseFrameOf(data: seq<Byte>, tail: seq<Byte>)
    requires |data| < TWO_TO_64
    ensures ParseFrame(Word(|data|) + data + tail) == Some(Parsed(data, tail))
  {
    assert Word(|data|) + data + tail == Word(|data|) + (data + tail);
    ParseWordOf(|data|, data + tail);
  }

  lemma ParseValueOf(v: Value, tail: seq<Byte>)
    requires Storable(v)
    ensures ParseValue(EncodeValue(v) + tail) == Some(Parsed(v, tail))
  {
    hide Word, ParseWord, ParseFrame, ParseValue;
    match v
    case Null => ParseNull([NULL] + tail);
    case Integer(n) =>
      ParseWordOf(Unsigned(n), tail);
      ParseTagged(INTEGER, Word(Unsigned(n)), tail);
    case Real(bits) =>
      ParseWordOf(bits, tail);
      ParseTagged(REAL, Word(bits), tail);
    case Text(utf8) =>
      ParseFrameOf(utf8, tail);
      Framed(TEXT, Word(|utf8|), utf8, tail);
      ParseTagged(TEXT, Word(|utf8|) + utf8, tail);
    case Blob(data) =>
      ParseFrameOf(data, tail);
      Framed(BLOB, Word(|data|), data, tail);
      ParseTagged(BLOB, Word(|data|) + data, tail);
  }

  lemma Framed(tag: Byte, length: seq<Byte>, data: seq<Byte>, tail: seq<Byte>)
    ensures [tag] + length + data + tail == [tag] + (length + data) + tail
  {
  }

  lemma ParseNull(s: seq<Byte>)
    requires s != [] && s[0] == NULL
    ensures ParseValue(s) == Some(Parsed(Null, s[1..]))
  {
  }

  /** What a value parses to, by its tag. */
  lemma ParseTagged(tag: Byte, body: seq<Byte>, tail: seq<Byte>)
    requires tag in {INTEGER, REAL, TEXT, BLOB}
    ensures var r, w, f := ParseValue([tag] + body + tail), ParseWord(body + tail), ParseFrame(body + tail);
      && (tag == INTEGER && w.Some? ==> r == Some(Parsed(Integer(Signed(w.value.item)), w.value.rest)))
      && (tag == REAL && w.Some? ==> r == Some(Parsed(Real(w.value.item), w.value.rest)))
      && (tag == TEXT && f.Some? ==> r == Some(Parsed(Text(f.value.item), f.value.rest)))
      && (tag == BLOB && f.Some? ==> r == Some(Parsed(Blob(f.value.item), f.value.rest)))
  {
    hide ParseWord, ParseFrame, Signed;
    assert ([tag] + body + tail)[1..] == body + tail;
  }

  lemma {:induction false} ParseValuesOf(row: Row, tail: seq<Byte>)
    requires forall v <- row :: Storable(v)
    ensures ParseValues(EncodeValues(row) + tail, |row|) == Some(Parsed(row, tail))
  {
    hide EncodeValue, ParseValue;
    if row == [] {
      assert EncodeValues(row) + tail == tail;
    } else {
      assert EncodeValues(row) + tail == EncodeValue(row[0]) + (EncodeValues(row[1..]) + tail);
      ParseValueOf(row[0], EncodeValues(row[1..]) + tail);
      ParseValuesOf(row[1..], tail);
      assert row == [row[0]] + row[1..];
    }
  }

  lemma ParseRowOf(row: Row, tail: seq<Byte>)
    requires StorableRow(row)
    ensures ParseRow(EncodeRow(row) + tail) == Some(Parsed(row, tail))
  {
    hide Word, ParseWord, EncodeValues, ParseValues;
    assert (EncodeRow(row) + tail)[1..] == Word(|row|) + (EncodeValues(row) + tail);
    ParseWordOf(|row|, EncodeValues(row) + tail);
    ParseValuesOf(row, tail);
  }

  /** Every stream decodes to the rows it was made of: values, types, order, columns and count. */
  lemma {:induction false} ParseUndoesStream(rows: seq<Row>)
    requires forall row <- rows :: StorableRow(row)
    ensures Parse(Stream(rows)) == Some(rows)
  {
    hide EncodeRow, ParseRow;
    if rows != [] {
      ParseRowOf(rows[0], Stream(rows[1..]));
      ParseUndoesStream(rows[1..]);
      assert rows == [rows[0]] + rows[1..];
      Nonempty(rows[0]);
    }
  }

  lemma Nonempty(row: Row)
    requires StorableRow(row)
    ensures EncodeRow(row) != []
  {
  }

  /** So equal streams mean equal tables. */
  lemma StreamInjective(a: seq<Row>, b: seq<Row>)
    requires forall row <- a :: StorableRow(row)
    requires forall row <- b :: StorableRow(row)
    ensures Stream(a) == Stream(b) <==> a == b
  {
    ParseUndoesStream(a);
    ParseUndoesStream(b);
    hide Stream, Parse;
  }

  // ---------------------------------------------------------------- encoding undoes decoding

  lemma WordOfParse(s: seq<Byte>)
    requires |s| >= 8
    ensures ParseWord(s).Some? && ParseWord(s).value.item < TWO_TO_64
    ensures s == Word(ParseWord(s).value.item) + ParseWord(s).value.rest
  {
    LimitOfWord();
    BytesOfNumber(s[..8]);
  }

  lemma ValueOfParse(s: seq<Byte>)
    requires ParseValue(s).Some?
    ensures Storable(ParseValue(s).value.item)
    ensures s == EncodeValue(ParseValue(s).value.item) + ParseValue(s).value.rest
  {
    assert s == [s[0]] + s[1..];
    hide Word, ParseWord, ParseFrame, Storable, EncodeValue;
    if s[0] == NULL {
      assert EncodeValue(Null) == [NULL] && Storable(Null) by { TagNull(); }
    } else if s[0] == INTEGER || s[0] == REAL {
      WordOfParse(s[1..]);
      TagWord(ParseWord(s[1..]).value.item, ParseWord(s[1..]).value.rest);
    } else {
      FrameOfParse(s[1..]);
      TagFrame(ParseFrame(s[1..]).value.item, ParseFrame(s[1..]).value.rest);
    }
  }

  lemma TagNull()
    ensures EncodeValue(Null) == [NULL] && Storable(Null)
  {
  }

  lemma TagWord(n: nat, rest: seq<Byte>)
    requires n < TWO_TO_64
    ensures Storable(Integer(Signed(n))) && [INTEGER] + (Word(n) + rest) == EncodeValue(Integer(Signed(n))) + rest
    ensures Storable(Real(n)) && [REAL] + (Word(n) + rest) == EncodeValue(Real(n)) + rest
  {
    hide Word;
  }

  lemma TagFrame(data: seq<Byte>, rest: seq<Byte>)
    requires |data| < TWO_TO_64
    ensures Storable(Text(data)) && [TEXT] + (Word(|data|) + data + rest) == EncodeValue(Text(data)) + rest
    ensures Storable(Blob(data)) && [BLOB] + (Word(|data|) + data + rest) == EncodeValue(Blob(data)) + rest
  {
    hide Word;
    Framed(TEXT, Word(|data|), data, rest);
    Framed(BLOB, Word(|data|), data, rest);
  }

  lemma FrameOfParse(s: seq<Byte>)
    requires ParseFrame(s).Some?
    ensures var f := ParseFrame(s).value; |f.item| < TWO_TO_64 && s == Word(|f.item|) + f.item + f.rest
  {
    hide Word;
    WordOfParse(s);
    var w, f := ParseWord(s).value, ParseFrame(s).value;
    assert w.rest == f.item + f.rest;
  }

  lemma {:induction false} ValuesOfParse(s: seq<Byte>, n: nat)
    requires ParseValues(s, n).Some?
    ensures forall v <- ParseValues(s, n).value.item :: Storable(v)
    ensures s == EncodeValues(ParseValues(s, n).value.item) + ParseValues(s, n).value.rest
    decreases n
  {
    hide EncodeValue, ParseValue, Storable;
    if n > 0 {
      ValueOfParse(s);
      ValuesOfParse(ParseValue(s).value.rest, n - 1);
      var row := ParseValues(s, n).value.item;
      assert row[1..] == ParseValues(ParseValue(s).value.rest, n - 1).value.item;
    }
  }

  /** No other stream decodes: whatever the parser accepts is the stream of what it returns. */
  lemma {:induction false} StreamUndoesParse(s: seq<Byte>)
    requires Parse(s).Some?
    ensures forall row <- Parse(s).value :: StorableRow(row)
    ensures Stream(Parse(s).value) == s
    decreases |s|
  {
    if s != [] {
      RowOfParse(s);
      hide ParseRow, EncodeRow, StorableRow;
      StreamUndoesParse(ParseRow(s).value.rest);
      assert Parse(s).value[1..] == Parse(ParseRow(s).value.rest).value;
    }
  }

  lemma RowOfParse(s: seq<Byte>)
    requires s != [] && ParseRow(s).Some?
    ensures StorableRow(ParseRow(s).value.item)
    ensures s == EncodeRow(ParseRow(s).value.item) + ParseRow(s).value.rest
  {
    hide Word, Storable, EncodeValues, ParseValues;
    assert s == [s[0]] + s[1..];
    WordOfParse(s[1..]);
    var n := ParseWord(s[1..]).value;
    ValuesOfParse(n.rest, n.item);
  }
}
