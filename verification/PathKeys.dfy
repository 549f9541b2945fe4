/**
  The journal's key of a path: lossless little-endian UTF-16 in hexadecimal, so
  that no two paths share a key and every key gives its path back.
*/
module PathKeys {
  import opened Bytes

  newtype Unit = x: int | 0 <= x < 0x10000

  type Path = seq<Unit>

  const PREFIX := "u16:"

  const SEPARATOR: Unit := 0x5c

  // ---- hexadecimal

  function Value(c: char): (v: Option<int>)
    ensures v.Some? ==> 0 <= v.value < 16
  {
    if '0' <= c <= '9' then Some(c as int - '0' as int)
    else if 'a' <= c <= 'f' then Some(c as int - 'a' as int + 10)
    else if 'A' <= c <= 'F' then Some(c as int - 'A' as int + 10)
    else None
  }

  function Digit(v: int): char
    requires 0 <= v < 16
  {
    if v < 10 then (v + '0' as int) as char else (v - 10 + 'a' as int) as char
  }

  function LowerDigit(c: char): char {
    if 'A' <= c <= 'F' then (c as int - 'A' as int + 'a' as int) as char else c
  }

  function Lower(s: string): string {
    if s == "" then "" else [LowerDigit(s[0])] + Lower(s[1..])
  }

  function Encode(bytes: seq<Byte>): string {
    if bytes == [] then ""
    else [Digit(bytes[0] as int / 16), Digit(bytes[0] as int % 16)] + Encode(bytes[1..])
  }

  /** Either case is read; an odd length or another character is refused. */
  function Decode(s: string): Option<seq<Byte>> {
    if s == "" then Some([])
    else if |s| == 1 then None
    else
      var high, low, rest := Value(s[0]), Value(s[1]), Decode(s[2..]);
      if high.None? || low.None? || rest.None? then None
      else Some([(high.value * 16 + low.value) as Byte] + rest.value)
  }

  lemma DigitIs(c: char, v: int)
    requires 0 <= v < 16
    ensures Value(c) == Some(v) <==> LowerDigit(c) == Digit(v)
  {
  }

  /** Reading is the inverse of writing, but for the case of the digits. */
  lemma {:induction false} DecodeExactly(s: string, bytes: seq<Byte>)
    ensures Decode(s) == Some(bytes) <==> Lower(s) == Encode(bytes)
  {
    if s == "" {
    } else if bytes == [] {
      assert |Lower(s)| >= 1;
    } else if |s| == 1 {
      assert s[1..] == "";
      assert |Lower(s)| == 1 && |Encode(bytes)| >= 2;
    } else {
      DecodeExactly(s[2..], bytes[1..]);
      DigitIs(s[0], bytes[0] as int / 16);
      DigitIs(s[1], bytes[0] as int % 16);
      LowerIs(s, bytes);
      PairIs(s, bytes);
    }
  }

  lemma LowerIs(s: string, bytes: seq<Byte>)
    requires |s| >= 2 && |bytes| >= 1
    ensures Lower(s) == Encode(bytes)
            <==> LowerDigit(s[0]) == Digit(bytes[0] as int / 16) && LowerDigit(s[1]) == Digit(bytes[0] as int % 16)
                 && Lower(s[2..]) == Encode(bytes[1..])
  {
    LowerTwo(s);
    TwoAndRest(LowerDigit(s[0]), LowerDigit(s[1]), Lower(s[2..]),
               Digit(bytes[0] as int / 16), Digit(bytes[0] as int % 16), Encode(bytes[1..]));
  }

  lemma TwoAndRest(a: char, b: char, x: string, c: char, d: char, y: string)
    ensures [a, b] + x == [c, d] + y <==> a == c && b == d && x == y
  {
    var left, right := [a, b] + x, [c, d] + y;
    assert left[0] == a && left[1] == b && left[2..] == x;
    assert right[0] == c && right[1] == d && right[2..] == y;
  }

  lemma LowerTwo(s: string)
    requires |s| >= 2
    ensures Lower(s) == [LowerDigit(s[0]), LowerDigit(s[1])] + Lower(s[2..])
  {
    assert s[1..][1..] == s[2..];
  }

  lemma PairIs(s: string, bytes: seq<Byte>)
    requires |s| >= 2 && |bytes| >= 1
    ensures Decode(s) == Some(bytes)
            <==> Value(s[0]) == Some(bytes[0] as int / 16) && Value(s[1]) == Some(bytes[0] as int % 16)
                 && Decode(s[2..]) == Some(bytes[1..])
  {
    assert bytes == [bytes[0]] + bytes[1..];
    var high, low, rest := Value(s[0]), Value(s[1]), Decode(s[2..]);
    if high.Some? && low.Some? && rest.Some? {
      var first := (high.value * 16 + low.value) as Byte;
      assert ([first] + rest.value)[0] == first && ([first] + rest.value)[1..] == rest.value;
    }
  }

  // ---- code units

  function BytesOf(path: Path): seq<Byte> {
    if path == [] then []
    else [(path[0] as int % 256) as Byte, (path[0] as int / 256) as Byte] + BytesOf(path[1..])
  }

  function UnitsOf(bytes: seq<Byte>): Option<Path> {
    if bytes == [] then Some([])
    else if |bytes| == 1 then None
    else
      var rest := UnitsOf(bytes[2..]);
      if rest.None? then None else Some([(bytes[0] as int + 256 * bytes[1] as int) as Unit] + rest.value)
  }

  lemma {:induction false} UnitsExactly(bytes: seq<Byte>, path: Path)
    ensures UnitsOf(bytes) == Some(path) <==> bytes == BytesOf(path)
  {
    if bytes == [] || path == [] || |bytes| == 1 {
    } else {
      UnitsExactly(bytes[2..], path[1..]);
      assert bytes == [bytes[0], bytes[1]] + bytes[2..];
      assert path == [path[0]] + path[1..];
      var rest := UnitsOf(bytes[2..]);
      if rest.Some? {
        var first := (bytes[0] as int + 256 * bytes[1] as int) as Unit;
        assert ([first] + rest.value)[0] == first && ([first] + rest.value)[1..] == rest.value;
      }
      assert BytesOf(path)[2..] == BytesOf(path[1..]);
    }
  }

  // ---- keys

  function PathKey(path: Path): string { PREFIX + Encode(BytesOf(path)) }

  function KeyToPath(key: string): Option<Path> {
    if |key| < 4 || key[..4] != PREFIX then None
    else match Decode(key[4..])
         case None => None
         case Some(bytes) => UnitsOf(bytes)
  }

  /** A key gives exactly the path it was made from, whatever the case of its
      digits; anything else gives nothing. */
  lemma KeyToPathExactly(key: string, path: Path)
    ensures KeyToPath(key) == Some(path)
            <==> |key| >= 4 && key[..4] == PREFIX && PREFIX + Lower(key[4..]) == PathKey(path)
  {
    if |key| >= 4 && key[..4] == PREFIX {
      DecodeExactly(key[4..], BytesOf(path));
      assert PREFIX + Lower(key[4..]) == PathKey(path) <==> Lower(key[4..]) == Encode(BytesOf(path)) by {
        assert (PREFIX + Lower(key[4..]))[4..] == Lower(key[4..]);
        assert PathKey(path)[4..] == Encode(BytesOf(path));
      }
      if Decode(key[4..]).Some? {
        UnitsExactly(Decode(key[4..]).value, path);
      }
    }
  }

  lemma {:induction false} EncodedIsLower(bytes: seq<Byte>)
    ensures Lower(Encode(bytes)) == Encode(bytes)
  {
    if bytes == [] {
    } else {
      var s := Encode(bytes);
      EncodedIsLower(bytes[1..]);
      assert s[2..] == Encode(bytes[1..]);
      LowerIs(s, bytes);
    }
  }

  /** Every path comes back from its key, so no two paths share one. */
  lemma KeyRoundTrip(path: Path)
    ensures KeyToPath(PathKey(path)) == Some(path)
    ensures forall other :: PathKey(other) == PathKey(path) ==> other == path
  {
    BackAgain(path);
    forall other | PathKey(other) == PathKey(path) ensures other == path {
      BackAgain(other);
    }
  }

  lemma BackAgain(path: Path)
    ensures KeyToPath(PathKey(path)) == Some(path)
  {
    EncodedIsLower(BytesOf(path));
    KeyToPathExactly(PathKey(path), path);
    assert PathKey(path)[..4] == PREFIX && PathKey(path)[4..] == Encode(BytesOf(path));
  }

  // ---- where a path lies

  datatype Place = Place(directory: Path, name: Path)

  /** The parent and the last component of a relative path of plain names. */
  function Split(path: Path): Option<Place>
    decreases |path|
  {
    if path == [] then None
    else
      var n := |path| - 1;
      if path[n] == SEPARATOR then Some(Place(path[..n], []))
      else match Split(path[..n])
           case None => Some(Place([], path))
           case Some(p) =>
             if SEPARATOR in path[..n] then Some(Place(p.directory, p.name + [path[n]])) else Some(Place([], path))
  }

  function Join(directory: Path, name: Path): Path {
    if directory == [] then name else directory + [SEPARATOR] + name
  }

  /** The place a checkpoint speaks for. */
  function PlaceOf(key: string): Option<Place> {
    match KeyToPath(key)
    case None => None
    case Some(path) => Split(path)
  }

  lemma SplitJoin(directory: Path, name: Path)
    requires name != [] && SEPARATOR !in name
    ensures Split(Join(directory, name)) == Some(Place(directory, name))
  {
    if directory == [] {
      SplitRoot(name);
    } else {
      SplitBelow(directory, name);
    }
  }

  lemma {:induction false} SplitRoot(name: Path)
    requires name != [] && SEPARATOR !in name
    ensures Split(name) == Some(Place([], name))
  {
    var n := |name| - 1;
    assert name[n] in name;
    if n > 0 {
      SplitRoot(name[..n]);
    }
  }

  lemma {:induction false} SplitBelow(directory: Path, name: Path)
    requires SEPARATOR !in name
    ensures Split(directory + [SEPARATOR] + name) == Some(Place(directory, name))
    decreases |name|
  {
    var path := directory + [SEPARATOR] + name;
    var last := |path| - 1;
    if name == [] {
      assert path[..last] == directory;
    } else {
      var n := |name| - 1;
      assert path[..last] == directory + [SEPARATOR] + name[..n] && path[last] == name[n];
      SplitBelow(directory, name[..n]);
      assert path[..last][|directory|] == SEPARATOR;
      assert name[..n] + [name[n]] == name;
    }
  }

  /** The key a checkpoint records for a child of a directory speaks for that
      directory and that child, and for no other. */
  lemma ChildKeySpeaks(directory: Path, name: Path)
    requires name != [] && SEPARATOR !in name
    ensures PlaceOf(PathKey(Join(directory, name))) == Some(Place(directory, name))
  {
    KeyRoundTrip(Join(directory, name));
    SplitJoin(directory, name);
  }
}
