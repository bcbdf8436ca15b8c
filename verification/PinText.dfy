/** The pin file as it is written: keys as text, compared as text. The other modules
    tell the spellings of a key apart without saying what they look like; here they
    are the strings. */
module PinText {
  import opened Common
  import opened Enrollment
  import opened ControlPlane
  import Registry

  datatype Row = Row(key: string, name: string)

  function Without(rows: seq<Row>, key: string): seq<Row> {
    if rows == [] then []
    else if rows[0].key == key then Without(rows[1..], key)
    else [rows[0]] + Without(rows[1..], key)
  }

  function With(rows: seq<Row>, key: string, name: string): seq<Row> {
    Without(rows, key) + [Row(key, name)]
  }

  function AsPins(c: Codec, rows: seq<Row>): seq<Enrollment.Pin> {
    seq(|rows|, i requires 0 <= i < |rows| => Enrollment.Pin(TextOf(c, rows[i].key), rows[i].name))
  }

  /** Removing rows by string is removing rows by text. */
  lemma {:induction false} WithoutIsWithoutText(c: Codec, rows: seq<Row>, key: string)
    ensures AsPins(c, Without(rows, key)) == WithoutText(AsPins(c, rows), TextOf(c, key))
  {
    if rows != [] {
      WithoutIsWithoutText(c, rows[1..], key);
      assert AsPins(c, rows)[1..] == AsPins(c, rows[1..]);
      if rows[0].key != key {
        assert Without(rows, key)[1..] == Without(rows[1..], key);
      }
    }
  }

  lemma WithIsWithPin(c: Codec, rows: seq<Row>, key: string, name: string)
    ensures AsPins(c, With(rows, key, name)) == WithPin(AsPins(c, rows), TextOf(c, key), name)
  {
    WithoutIsWithoutText(c, rows, key);
  }

  /** A registered key pinned by request and then evicted is registered again by
      the next start exactly when the request, or some earlier row, spelled it
      otherwise than it is printed. */
  lemma PinOutlivesEvictionIff(c: Codec, rows: seq<Row>, key: string, name: string)
    requires Inverse(c) && c.read(key).Some?
    ensures var k := c.read(key).value;
            var left := Without(With(rows, key, name), c.show(k));
            k in Registry.Pinned(AsPins(c, left)) <==>
              key != c.show(k) || exists row <- rows :: c.read(row.key) == Some(k) && row.key != c.show(k)
  {
    var k := c.read(key).value;
    var file := With(rows, key, name);
    assert TextOf(c, c.show(k)) == Printed(k) by {
      assert c.read(c.show(k)) == Some(k);
    }
    WithoutIsWithoutText(c, file, c.show(k));
    WithoutPrinted(AsPins(c, file), k);
    Registry.PinnedKeysWithout(AsPins(c, file), {k});
    Registry.PinnedIsPins(AsPins(c, Without(file, c.show(k))));
    RespelledRows(c, file, k);
    WithHas(rows, key, name);
    assert file[|file| - 1] == Row(key, name);
    WithIsWithPin(c, rows, key, name);
    Registry.PinnedKeysWith(AsPins(c, rows), TextOf(c, key), name);
  }

  lemma RespelledRows(c: Codec, rows: seq<Row>, k: Key)
    ensures RespelledIn(AsPins(c, rows), k) <==> exists row <- rows :: c.read(row.key) == Some(k) && row.key != c.show(k)
  {
    var pins := AsPins(c, rows);
    if RespelledIn(pins, k) {
      var pin :| pin in pins && pin.text.Respelled? && pin.text.key == k;
      var i :| 0 <= i < |pins| && pins[i] == pin;
      assert rows[i] in rows;
    }
    if row :| row in rows && c.read(row.key) == Some(k) && row.key != c.show(k) {
      var i :| 0 <= i < |rows| && rows[i] == row;
      assert pins[i] in pins;
    }
  }

  lemma {:induction false} WithoutKeeps(rows: seq<Row>, key: string)
    ensures forall row :: row in Without(rows, key) <==> row in rows && row.key != key
  {
    if rows != [] {
      WithoutKeeps(rows[1..], key);
      assert rows == [rows[0]] + rows[1..];
    }
  }

  lemma WithHas(rows: seq<Row>, key: string, name: string)
    ensures forall row :: row in With(rows, key, name) <==> row == Row(key, name) || (row in rows && row.key != key)
  {
    WithoutKeeps(rows, key);
  }

  // ------------------------------------- an example of a codec with two spellings

  function Digit(n: bv8): char {
    match n
    case 0 => '0' case 1 => '1' case 2 => '2' case 3 => '3' case 4 => '4' case 5 => '5' case 6 => '6' case 7 => '7'
    case 8 => '8' case 9 => '9' case 10 => 'a' case 11 => 'b' case 12 => 'c' case 13 => 'd' case 14 => 'e' case _ => 'f'
  }

  function DigitValue(c: char): Option<bv8> {
    match c
    case '0' => Some(0) case '1' => Some(1) case '2' => Some(2) case '3' => Some(3)
    case '4' => Some(4) case '5' => Some(5) case '6' => Some(6) case '7' => Some(7)
    case '8' => Some(8) case '9' => Some(9)
    case 'a' => Some(10) case 'b' => Some(11) case 'c' => Some(12)
    case 'd' => Some(13) case 'e' => Some(14) case 'f' => Some(15)
    case 'A' => Some(10) case 'B' => Some(11) case 'C' => Some(12)
    case 'D' => Some(13) case 'E' => Some(14) case 'F' => Some(15)
    case _ => None
  }

  function ShowBytes(bytes: seq<bv8>): string {
    if bytes == [] then [] else [Digit(bytes[0] >> 4), Digit(bytes[0] & 15)] + ShowBytes(bytes[1..])
  }

  function ReadBytes(s: string): Option<seq<bv8>> {
    if s == [] then Some([])
    else if |s| == 1 then None
    else
      match (DigitValue(s[0]), DigitValue(s[1]), ReadBytes(s[2..]))
      case (Some(hi), Some(lo), Some(rest)) => Some([(hi << 4) | lo] + rest)
      case _ => None
  }

  /** Hexadecimal, printed in lower case and read in either. How the program's keys
      are read is not part of this model. */
  const HEX := Codec((k: Key) => ShowBytes(k.bytes),
                     s => match ReadBytes(s) case None => None case Some(bytes) => Some(Key(bytes)))

  lemma DigitReads(b: bv8)
    ensures DigitValue(Digit(b >> 4)) == Some(b >> 4) && DigitValue(Digit(b & 15)) == Some(b & 15)
    ensures ((b >> 4) << 4) | (b & 15) == b
  {
    assert b >> 4 <= 15 && b & 15 <= 15;
  }

  lemma {:induction false} BytesReadBack(bytes: seq<bv8>)
    ensures ReadBytes(ShowBytes(bytes)) == Some(bytes)
  {
    if bytes != [] {
      BytesReadBack(bytes[1..]);
      DigitReads(bytes[0]);
      assert ShowBytes(bytes)[2..] == ShowBytes(bytes[1..]);
      assert [bytes[0]] + bytes[1..] == bytes;
    }
  }

  lemma UpperReads(s: string)
    requires |s| == 2 && s[0] == 'A' && s[1] == 'B'
    ensures ReadBytes(s) == Some([0xAB])
  {
    assert s[2..] == [] && ReadBytes(s[2..]) == Some([]);
    assert ((10 as bv8) << 4) | 11 == 0xAB;
    assert [0xAB as bv8] + [] == [0xAB];
  }

  /** For instance: where keys were printed in lower-case and read in either case, one
      pinned in upper case would be registered again after it was evicted. */
  lemma UpperCasePinOutlivesEviction()
    ensures Inverse(HEX)
    ensures var k := Key([0xAB]);
            && HEX.read("AB") == Some(k) && HEX.show(k) == "ab"
            && k in Registry.Pinned(AsPins(HEX, Without(With([], "AB", "home"), HEX.show(k))))
  {
    forall k ensures HEX.read(HEX.show(k)) == Some(k) {
      BytesReadBack(k.bytes);
    }
    var k := Key([0xAB]);
    UpperReads("AB");
    assert HEX.show(k) == "ab" by {
      assert ShowBytes([]) == [] && [0xAB as bv8][1..] == [];
    }
    PinOutlivesEvictionIff(HEX, [], "AB", "home");
  }
}
