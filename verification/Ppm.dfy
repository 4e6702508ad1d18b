/**
 Binary PPM images: the canvas writer and the capture checker's reader. A file is a
 sequence of bytes, each written as the character with that code.
 */
module Ppm {
  import opened Arith
  import opened Words
  import opened Options
  import opened Canvas
  import opened Decimal

  const SIZE_MAX: int := SIZE_RANGE - 1
  const PIXEL_BYTES: nat := 4

  /** `struct cart_canvas` with its pixel memory. */
  datatype Image = Image(pixels: seq<Pixel>, width: nat, height: nat, stride: nat) {
    /** `cart_canvas_valid`, on memory that holds the canvas. */
    predicate Valid() {
      && 0 < width <= stride && 0 < height
      && height <= SIZE_MAX / stride && stride * height <= SIZE_MAX / PIXEL_BYTES
    }

    ghost predicate Backed() {
      Valid() ==> |pixels| >= stride * height
    }
  }

  // ----------------------------------------------------------------- writing

  lemma PixelInside(row: nat, column: nat, c: Image)
    requires row < c.height && column < c.width <= c.stride
    ensures 0 <= row * c.stride + column < c.stride * c.height
  {
    MulLe(row + 1, c.height, c.stride);
    MulLe(0, row, c.stride);
    assert (row + 1) * c.stride == row * c.stride + c.stride;
  }

  function PixelOf(c: Image, row: nat, column: nat): Pixel
    requires c.Valid() && c.Backed() && row < c.height && column < c.width
  {
    PixelInside(row, column, c);
    c.pixels[row * c.stride + column]
  }

  /** The bytes of one pixel: red, green, blue. */
  function Triple(p: Pixel): (r: string)
    ensures |r| == 3
  {
    [Get(p, Red) as char, Get(p, Green) as char, Get(p, Blue) as char]
  }

  /** The first `columns` pixels of a row. */
  function RowBytes(c: Image, row: nat, columns: nat): (r: string)
    requires c.Valid() && c.Backed() && row < c.height && columns <= c.width
    ensures |r| == 3 * columns
  {
    if columns == 0 then "" else RowBytes(c, row, columns - 1) + Triple(PixelOf(c, row, columns - 1))
  }

  /** The first `rows` rows, without their padding. */
  function Raster(c: Image, rows: nat): (r: string)
    requires c.Valid() && c.Backed() && rows <= c.height
    ensures |r| == 3 * (c.width * rows)
  {
    if rows == 0 then ""
    else
      assert c.width * rows == c.width * (rows - 1) + c.width;
      Raster(c, rows - 1) + RowBytes(c, rows - 1, c.width)
  }

  function Header(width: nat, height: nat): string {
    "P6\n" + Print(width) + " " + Print(height) + "\n255\n"
  }

  function Written(c: Image): string
    requires c.Valid() && c.Backed()
  {
    Header(c.width, c.height) + Raster(c, c.height)
  }

  /** What a stream that takes `room` bytes in all holds of a text. */
  function Kept(text: string, room: nat): string {
    if room < |text| then text[..room] else text
  }

  /** `fprintf` or `fwrite` on a stream with limited room. */
  method Put(file: string, room: nat, ghost text: string, bytes: string) returns (more: string, ok: bool)
    requires file == text && |text| <= room
    ensures more == Kept(text + bytes, room) && ok == (|text + bytes| <= room)
    ensures ok ==> more == text + bytes
  {
    ok := |bytes| <= room - |file|;
    more := file + if ok then bytes else bytes[..room - |file|];
  }

  lemma {:induction false} RasterExtends(c: Image, rows: nat, all: nat)
    requires c.Valid() && c.Backed() && rows <= all <= c.height
    ensures Raster(c, rows) <= Raster(c, all)
    decreases all
  {
    if rows < all {
      RasterExtends(c, rows, all - 1);
      assert Raster(c, all)[..|Raster(c, all - 1)|] == Raster(c, all - 1);
      assert Raster(c, all)[..|Raster(c, rows)|] == Raster(c, all - 1)[..|Raster(c, rows)|];
    }
  }

  lemma {:induction false} RowExtends(c: Image, row: nat, columns: nat, all: nat)
    requires c.Valid() && c.Backed() && row < c.height && columns <= all <= c.width
    ensures RowBytes(c, row, columns) <= RowBytes(c, row, all)
    decreases all
  {
    if columns < all {
      RowExtends(c, row, columns, all - 1);
      assert RowBytes(c, row, all)[..3 * columns] == RowBytes(c, row, all - 1)[..3 * columns];
    }
  }

  lemma PrefixAfter(head: string, a: string, b: string)
    requires a <= b
    ensures head + a <= head + b
  {
  }

  lemma PrefixOfPrefix(a: string, b: string, c: string)
    requires a <= b <= c
    ensures a <= c
  {
  }

  /** Up to a pixel, everything written so far begins the whole file. */
  lemma PartBegins(c: Image, row: nat, columns: nat)
    requires c.Valid() && c.Backed() && row < c.height && columns <= c.width
    ensures Header(c.width, c.height) + Raster(c, row) + RowBytes(c, row, columns) <= Written(c)
  {
    var head, above, part := Header(c.width, c.height), Raster(c, row), RowBytes(c, row, columns);
    RowExtends(c, row, columns, c.width);
    PrefixAfter(above, part, RowBytes(c, row, c.width));
    RasterExtends(c, row + 1, c.height);
    PrefixOfPrefix(above + part, Raster(c, row + 1), Raster(c, c.height));
    PrefixAfter(head, above + part, Raster(c, c.height));
    assert head + above + part == head + (above + part);
  }

  lemma CutBegins(part: string, full: string, room: nat)
    requires part <= full && |part| > room
    ensures Kept(part, room) == Kept(full, room)
  {
  }

  method WritePixel(c: Image, room: nat, ghost above: string, file: string, row: nat, column: nat) returns (more: string, ok: bool)
    requires c.Valid() && c.Backed() && row < c.height && column < c.width && |file| <= room
    requires above == Header(c.width, c.height) + Raster(c, row) && file == above + RowBytes(c, row, column)
    ensures ok ==> more == above + RowBytes(c, row, column + 1) && |more| <= room
    ensures !ok ==> more == Kept(Written(c), room) && room < |Written(c)|
  {
    PartBegins(c, row, column + 1);
    ghost var part := above + RowBytes(c, row, column + 1);
    assert part == file + Triple(PixelOf(c, row, column));
    more, ok := Put(file, room, file, Triple(PixelOf(c, row, column)));
    if !ok {
      CutBegins(part, Written(c), room);
    }
  }

  /** The inner loop of `cart_canvas_write_ppm`: one row, column by column. */
  method WriteRow(c: Image, room: nat, file: string, row: nat) returns (more: string, ok: bool)
    requires c.Valid() && c.Backed() && row < c.height && |file| <= room
    requires file == Header(c.width, c.height) + Raster(c, row)
    ensures ok ==> more == Header(c.width, c.height) + Raster(c, row + 1) && |more| <= room
    ensures !ok ==> more == Kept(Written(c), room) && room < |Written(c)|
  {
    more := file;
    for column := 0 to c.width
      invariant more == file + RowBytes(c, row, column) && |more| <= room
    {
      more, ok := WritePixel(c, room, file, more, row, column);
      if !ok {
        return;
      }
    }
    assert more == Header(c.width, c.height) + Raster(c, row + 1);
    ok := true;
  }

  /**
   `cart_canvas_write_ppm` to a stream with room for `room` bytes: it succeeds exactly when a
   valid canvas fits, and what reached the stream is the file or a beginning of it.
   */
  method WritePpm(c: Image, room: nat) returns (file: string, ok: bool)
    requires c.Backed()
    ensures c.Valid() ==> file == Kept(Written(c), room) && ok == (|Written(c)| <= room)
    ensures !c.Valid() ==> file == "" && !ok
  {
    if !c.Valid() {
      return "", false;
    }
    file, ok := Put("", room, "", Header(c.width, c.height));
    assert "" + Header(c.width, c.height) == Header(c.width, c.height);
    assert Header(c.width, c.height) <= Written(c);
    if !ok {
      CutBegins(Header(c.width, c.height), Written(c), room);
      return;
    }
    assert file == Header(c.width, c.height) + Raster(c, 0);
    for row := 0 to c.height
      invariant file == Header(c.width, c.height) + Raster(c, row) && |file| <= room
    {
      file, ok := WriteRow(c, room, file, row);
      if !ok {
        return;
      }
    }
    ok := true;
  }

  /** Byte `channel` of pixel (row, column) is where a row-major packed raster has it. */
  lemma {:induction false} RasterAt(c: Image, rows: nat, row: nat, column: nat)
    requires c.Valid() && c.Backed() && row < rows <= c.height && column < c.width
    ensures var at := 3 * (c.width * row + column);
            0 <= at && at + 3 <= |Raster(c, rows)| && Raster(c, rows)[at..at + 3] == Triple(PixelOf(c, row, column))
    decreases rows
  {
    var at, above := 3 * (c.width * row + column), Raster(c, rows - 1);
    assert c.width * rows == c.width * (rows - 1) + c.width;
    if row < rows - 1 {
      RasterAt(c, rows - 1, row, column);
      SliceFirst(above, RowBytes(c, rows - 1, c.width), at, at + 3);
    } else {
      RowAt(c, row, c.width, column);
      SliceSecond(above, RowBytes(c, row, c.width), 3 * column, 3 * column + 3);
    }
  }

  lemma SliceFirst(a: string, b: string, i: int, j: int)
    requires 0 <= i <= j <= |a|
    ensures (a + b)[i..j] == a[i..j]
  {
  }

  lemma SliceSecond(a: string, b: string, i: int, j: int)
    requires 0 <= i <= j <= |b|
    ensures (a + b)[|a| + i..|a| + j] == b[i..j]
  {
  }

  lemma {:induction false} RowAt(c: Image, row: nat, columns: nat, column: nat)
    requires c.Valid() && c.Backed() && row < c.height && column < columns <= c.width
    ensures RowBytes(c, row, columns)[3 * column..3 * column + 3] == Triple(PixelOf(c, row, column))
    decreases columns
  {
    if column < columns - 1 {
      RowAt(c, row, columns - 1, column);
      assert RowBytes(c, row, columns)[3 * column..3 * column + 3] == RowBytes(c, row, columns - 1)[3 * column..3 * column + 3];
    }
  }

  // ----------------------------------------------------------------- reading

  datatype Parsed = Picture(width: int, height: int, raster: string) | NotP6 | BadNumber | BadDepth | Truncated

  predicate IsSpace(c: char) {
    c == ' ' || c == '\t' || c == '\r' || c == '\n'
  }

  predicate NotSpace(c: char) {
    !IsSpace(c)
  }

  predicate EndsLine(c: char) {
    c == '\r' || c == '\n'
  }

  /** The first position from `p` on whose byte is a stop, or the end. */
  function Find(data: string, p: nat, stop: char -> bool): (q: nat)
    requires p <= |data|
    ensures p <= q <= |data|
    decreases |data| - p
  {
    if p == |data| || stop(data[p]) then p else Find(data, p + 1, stop)
  }

  function PastSpace(data: string, p: nat): (q: nat)
    requires p <= |data|
    ensures p <= q <= |data|
  {
    Find(data, p, NotSpace)
  }

  function PastToken(data: string, p: nat): (q: nat)
    requires p <= |data|
    ensures p <= q <= |data|
  {
    Find(data, p, IsSpace)
  }

  function PastComment(data: string, p: nat): (q: nat)
    requires p < |data| && data[p] == '#'
    ensures p < q <= |data|
  {
    Find(data, p, EndsLine)
  }

  /** `n` header tokens from position `p`, comments skipped, and where they end. */
  function Tokens(data: string, p: nat, n: nat): (r: (seq<string>, nat))
    requires p <= |data|
    ensures |r.0| == n && p <= r.1 <= |data|
    decreases n, |data| - p
  {
    if n == 0 then ([], p)
    else
      var q := PastSpace(data, p);
      if q < |data| && data[q] == '#' then Tokens(data, PastComment(data, q), n)
      else
        var e := PastToken(data, q);
        var (rest, end) := Tokens(data, e, n - 1);
        ([data[q..e]] + rest, end)
  }

  /** Blanks that Python's int() strips; a token holds none of the header's own separators. */
  predicate Blank(c: char) {
    IsSpace(c) || c == '\U{b}' || c == '\U{c}'
  }

  function TrimLeft(s: string): string {
    if s != [] && Blank(s[0]) then TrimLeft(s[1..]) else s
  }

  function TrimRight(s: string): string {
    if s != [] && Blank(s[|s| - 1]) then TrimRight(s[..|s| - 1]) else s
  }

  /** Digits, with single underscores allowed between them. */
  predicate Numeral(s: string) {
    && s != [] && IsDigit(s[0]) && IsDigit(s[|s| - 1])
    && forall i | 0 <= i < |s| :: IsDigit(s[i]) || (s[i] == '_' && i > 0 && IsDigit(s[i - 1]))
  }

  function NumeralValue(s: string): nat {
    if s == [] then 0
    else
      var front, last := NumeralValue(s[..|s| - 1]), s[|s| - 1];
      if IsDigit(last) then front * 10 + DigitOf(last) else front
  }

  /** Python's int() on bytes. */
  function ToInt(token: string): Option<int> {
    var s := TrimRight(TrimLeft(token));
    var signed := s != [] && (s[0] == '+' || s[0] == '-');
    var digits := if signed then s[1..] else s;
    if !Numeral(digits) then None
    else Some(if signed && s[0] == '-' then 0 - NumeralValue(digits) else NumeralValue(digits))
  }

  /** Python's `body[:count]`, where a negative count cuts from the end. */
  function UpTo(body: string, count: int): string {
    if count >= |body| then body
    else if count >= 0 then body[..count]
    else if |body| + count >= 0 then body[..|body| + count]
    else ""
  }

  /** The image, from the three numbers of the header and the bytes after it. */
  function Assemble(w: Option<int>, h: Option<int>, depth: Option<int>, body: string): (r: Parsed)
    ensures r.Picture? ==> depth == Some(255)
  {
    if w.None? || h.None? || depth.None? then BadNumber
    else if depth.value != 255 then BadDepth
    else
      var count := w.value * h.value * 3;
      if |body| < count then Truncated else Picture(w.value, h.value, UpTo(body, count))
  }

  /** What follows the one separator byte after the header. */
  function Body(data: string, end: nat): string {
    if end < |data| then data[end + 1..] else ""
  }

  function Parse(data: string): Parsed {
    if |data| < 2 || data[..2] != "P6" then NotP6
    else
      var (tokens, end) := Tokens(data, 2, 3);
      Assemble(ToInt(tokens[0]), ToInt(tokens[1]), ToInt(tokens[2]), Body(data, end))
  }

  /** One scanning loop of the reader. */
  method Scan(data: string, from: nat, stop: char -> bool) returns (position: nat)
    requires from <= |data|
    ensures position == Find(data, from, stop)
  {
    position := from;
    while position < |data| && !stop(data[position])
      invariant from <= position <= |data|
      invariant Find(data, position, stop) == Find(data, from, stop)
    {
      position := position + 1;
    }
  }

  /** `read_ppm` on a file's bytes: a position and a token list advanced through the header. */
  method ReadPpm(data: string) returns (r: Parsed)
    ensures r == Parse(data)
  {
    if |data| < 2 || data[..2] != "P6" {
      return NotP6;
    }
    var tokens, position := ReadHeader(data);
    r := Assemble(ToInt(tokens[0]), ToInt(tokens[1]), ToInt(tokens[2]), Body(data, position));
  }

  /** The reader's outer loop: three tokens after the magic. */
  method ReadHeader(data: string) returns (tokens: seq<string>, position: nat)
    requires |data| >= 2
    ensures (tokens, position) == Tokens(data, 2, 3)
  {
    position, tokens := 2, [];
    ghost var names, end := Tokens(data, 2, 3).0, Tokens(data, 2, 3).1;
    assert [] + names == names;
    while |tokens| < 3
      invariant 2 <= position <= |data| && |tokens| <= 3
      invariant names == tokens + Tokens(data, position, 3 - |tokens|).0
      invariant end == Tokens(data, position, 3 - |tokens|).1
      decreases 3 - |tokens|, |data| - position
    {
      position, tokens := NextToken(data, position, tokens);
    }
    assert Tokens(data, position, 0) == ([], position) && tokens + [] == tokens;
  }

  /** One turn of the reader's outer loop: skip a comment or take a token. */
  method NextToken(data: string, from: nat, tokens: seq<string>) returns (position: nat, more: seq<string>)
    requires from <= |data| && |tokens| < 3
    ensures from <= position <= |data| && |tokens| <= |more| <= 3
    ensures |more| > |tokens| || position > from
    ensures more + Tokens(data, position, 3 - |more|).0 == tokens + Tokens(data, from, 3 - |tokens|).0
    ensures Tokens(data, position, 3 - |more|).1 == Tokens(data, from, 3 - |tokens|).1
  {
    var begin := Scan(data, from, NotSpace);
    if begin < |data| && data[begin] == '#' {
      position := Scan(data, begin, EndsLine);
      assert position == PastComment(data, begin);
      more := tokens;
      return;
    }
    position := Scan(data, begin, IsSpace);
    more := tokens + [data[begin..position]];
  }

  // -------------------------------------------------------------- round trip

  /** A scan in a file cut at `n` stops where it would have, or at the cut. */
  lemma {:induction false} FindCut(data: string, n: nat, p: nat, q: nat, stop: char -> bool)
    requires n <= |data| && p <= q < |data| && stop(data[q]) && forall i | p <= i < q :: !stop(data[i])
    ensures Find(data[..n], Min(p, n), stop) == Min(q, n)
    decreases q - p
  {
    if p < q && p < n {
      FindCut(data, n, p + 1, q, stop);
    }
  }

  /** One separator at `p` and a token from there up to the separator at `e`. */
  ghost predicate TokenAt(data: string, p: nat, e: nat) {
    && p + 1 < e < |data| && IsSpace(data[p]) && IsSpace(data[e])
    && (forall i | p < i < e :: !IsSpace(data[i])) && data[p + 1] != '#'
  }

  /** What is left of the token between separators `p` and `e` in a file cut at `n`. */
  function Piece(data: string, n: nat, p: nat, e: nat): string
    requires n <= |data| && p < e
  {
    data[..n][Min(p + 1, n)..Min(e, n)]
  }

  /** Reading one token from a file cut at `n`. */
  lemma TokenCut(data: string, n: nat, p: nat, e: nat, k: nat)
    requires n <= |data| && TokenAt(data, p, e) && k > 0
    ensures Tokens(data[..n], Min(p, n), k).0 == [Piece(data, n, p, e)] + Tokens(data[..n], Min(e, n), k - 1).0
    ensures Tokens(data[..n], Min(p, n), k).1 == Tokens(data[..n], Min(e, n), k - 1).1
  {
    FindCut(data, n, p, p + 1, NotSpace);
    FindCut(data, n, p + 1, e, IsSpace);
  }

  /** A digit string between two separators is a token. */
  lemma TokenBetween(data: string, before: string, token: string, after: string)
    requires data == before + token + after && token != [] && AllDigits(token)
    requires before != [] && IsSpace(before[|before| - 1]) && after != [] && IsSpace(after[0])
    ensures TokenAt(data, |before| - 1, |before| + |token|)
    ensures data[|before|..|before| + |token|] == token
  {
    assert forall i | 0 <= i < |token| :: data[|before| + i] == token[i];
    assert data[|before| - 1] == before[|before| - 1] && data[|before| + |token|] == after[0];
  }

  /** The printed depth. */
  const DEPTH: string := Print(255)

  /** The header's tokens, by the lengths of the printed width and height. */
  ghost predicate HeaderAt(data: string, w: string, h: string) {
    var a, b := |w|, |h|;
    && |data| >= 9 + a + b && AllDigits(w) && AllDigits(h) && w != [] && h != []
    && TokenAt(data, 2, 3 + a) && data[3..3 + a] == w
    && TokenAt(data, 3 + a, 4 + a + b) && data[4 + a..4 + a + b] == h
    && TokenAt(data, 4 + a + b, 8 + a + b) && data[5 + a + b..8 + a + b] == DEPTH
    && data[..2] == "P6"
  }

  lemma HeaderLayout(width: nat, height: nat, body: string)
    ensures HeaderAt(Header(width, height) + body, Print(width), Print(height))
    ensures |Header(width, height)| == 9 + |Print(width)| + |Print(height)|
  {
    var w, h := Print(width), Print(height);
    var data := Header(width, height) + body;
    DepthPrinted();
    FirstToken(w, h, body, data);
    SecondToken(w, h, body, data);
    ThirdToken(w, h, body, data);
  }

  lemma DepthPrinted()
    ensures DEPTH == "255" && Print(25) == "25" && Print(2) == "2"
  {
    assert Print(2) == "2";
    assert Print(25) == Print(2) + "5";
    assert Print(255) == Print(25) + "5";
  }

  lemma FirstToken(w: string, h: string, body: string, data: string)
    requires data == "P6\n" + w + " " + h + "\n255\n" + body && w != [] && AllDigits(w)
    ensures TokenAt(data, 2, 3 + |w|) && data[3..3 + |w|] == w && data[..2] == "P6"
  {
    var after := " " + (h + "\n255\n" + body);
    assert data == "P6\n" + w + after;
    TokenBetween(data, "P6\n", w, after);
  }

  lemma SecondToken(w: string, h: string, body: string, data: string)
    requires data == "P6\n" + w + " " + h + "\n255\n" + body && h != [] && AllDigits(h)
    ensures TokenAt(data, 3 + |w|, 4 + |w| + |h|) && data[4 + |w|..4 + |w| + |h|] == h
  {
    var before, after := "P6\n" + w + " ", "\n255\n" + body;
    assert data == before + h + after;
    TokenBetween(data, before, h, after);
  }

  lemma ThirdToken(w: string, h: string, body: string, data: string)
    requires data == "P6\n" + w + " " + h + "\n255\n" + body
    ensures TokenAt(data, 4 + |w| + |h|, 8 + |w| + |h|)
    ensures data[5 + |w| + |h|..8 + |w| + |h|] == DEPTH
  {
    var before, after := "P6\n" + w + " " + h + "\n", "\n" + body;
    DepthPrinted();
    assert data == before + "255" + after;
    TokenBetween(data, before, "255", after);
  }

  /** Three tokens of a file cut at `n`. */
  lemma ThreeCut(data: string, n: nat, p: nat, q: nat, r: nat, e: nat)
    requires n <= |data| && TokenAt(data, p, q) && TokenAt(data, q, r) && TokenAt(data, r, e)
    ensures Tokens(data[..n], Min(p, n), 3).0 == [Piece(data, n, p, q)] + ([Piece(data, n, q, r)] + [Piece(data, n, r, e)])
    ensures Tokens(data[..n], Min(p, n), 3).1 == Min(e, n)
  {
    TokenCut(data, n, p, q, 3);
    LastTwoCut(data, n, q, r, e);
  }

  lemma LastTwoCut(data: string, n: nat, q: nat, r: nat, e: nat)
    requires n <= |data| && TokenAt(data, q, r) && TokenAt(data, r, e)
    ensures Tokens(data[..n], Min(q, n), 2).0 == [Piece(data, n, q, r)] + [Piece(data, n, r, e)]
    ensures Tokens(data[..n], Min(q, n), 2).1 == Min(e, n)
  {
    TokenCut(data, n, q, r, 2);
    TokenCut(data, n, r, e, 1);
    assert Tokens(data[..n], Min(e, n), 0) == ([], Min(e, n));
  }

  /** The header's tokens in a file cut at `n`, for every cut after the magic. */
  lemma HeaderCut(data: string, w: string, h: string, n: nat)
    requires HeaderAt(data, w, h) && 2 <= n <= |data|
    ensures var a, b, r := |w|, |h|, Tokens(data[..n], 2, 3);
            && r.0[0] == Piece(data, n, 2, 3 + a) && r.0[1] == Piece(data, n, 3 + a, 4 + a + b)
            && r.0[2] == Piece(data, n, 4 + a + b, 8 + a + b) && r.1 == Min(8 + a + b, n)
  {
    ThreeCut(data, n, 2, 3 + |w|, 4 + |w| + |h|, 8 + |w| + |h|);
  }

  lemma {:induction false} NumeralDigits(s: string)
    requires AllDigits(s)
    ensures NumeralValue(s) == Value(s)
  {
    if s != [] {
      NumeralDigits(s[..|s| - 1]);
    }
  }

  lemma IntOfDigits(s: string)
    requires AllDigits(s)
    ensures ToInt(s) == if s == [] then None else Some(Value(s))
  {
    NumeralDigits(s);
    assert s != [] ==> IsDigit(s[0]) && IsDigit(s[|s| - 1]);
    assert TrimLeft(s) == s && TrimRight(s) == s;
  }

  lemma IntOfPrint(n: nat)
    ensures ToInt(Print(n)) == Some(n)
  {
    IntOfDigits(Print(n));
    ValuePrint(n);
  }

  /** A token the cut does not reach is whole. */
  lemma PieceWhole(data: string, n: nat, p: nat, e: nat)
    requires p < e <= n <= |data|
    ensures Piece(data, n, p, e) == data[p + 1..e]
  {
  }

  /** The tokens of a file whose header is complete. */
  lemma HeaderWhole(data: string, w: string, h: string, n: nat)
    requires HeaderAt(data, w, h) && 8 + |w| + |h| <= n <= |data|
    ensures var r := Tokens(data[..n], 2, 3);
            r.0[0] == w && r.0[1] == h && r.0[2] == DEPTH && r.1 == 8 + |w| + |h|
  {
    HeaderCut(data, w, h, n);
    PieceWhole(data, n, 2, 3 + |w|);
    PieceWhole(data, n, 3 + |w|, 4 + |w| + |h|);
    PieceWhole(data, n, 4 + |w| + |h|, 8 + |w| + |h|);
  }

  lemma ParseBy(data: string, w: Option<int>, h: Option<int>, depth: Option<int>, end: nat)
    requires |data| >= 2 && data[..2] == "P6" && Tokens(data, 2, 3).1 == end
    requires ToInt(Tokens(data, 2, 3).0[0]) == w && ToInt(Tokens(data, 2, 3).0[1]) == h && ToInt(Tokens(data, 2, 3).0[2]) == depth
    ensures Parse(data) == Assemble(w, h, depth, Body(data, end))
  {
  }

  /** What the reader makes of a file whose header is complete: the bytes after it are taken as they are. */
  lemma ReadsHeader(data: string, w: string, h: string, n: nat, end: nat)
    requires HeaderAt(data, w, h) && end == 8 + |w| + |h| && end <= n <= |data|
    ensures Parse(data[..n]) == Assemble(ToInt(w), ToInt(h), ToInt(DEPTH), Body(data[..n], end))
  {
    HeaderWhole(data, w, h, n);
    assert data[..n][..2] == data[..2];
    ParseBy(data[..n], ToInt(w), ToInt(h), ToInt(DEPTH), end);
  }

  /** A header and a raster of the size it announces, whatever bytes the raster begins with. */
  lemma ReadsWhole(data: string, w: string, h: string, raster: string, width: nat, height: nat)
    requires HeaderAt(data, w, h) && ToInt(w) == Some(width) && ToInt(h) == Some(height)
    requires data[9 + |w| + |h|..] == raster && |raster| == width * height * 3
    ensures Parse(data) == Picture(width, height, raster)
  {
    var end := 8 + |w| + |h|;
    ReadsAll(data, w, h, raster, end);
    IntOfPrint(255);
    AssembleExact(ToInt(w), ToInt(h), ToInt(DEPTH), width, height, raster);
  }

  lemma ReadsAll(data: string, w: string, h: string, raster: string, end: nat)
    requires HeaderAt(data, w, h) && end == 8 + |w| + |h| && data[end + 1..] == raster
    ensures Parse(data) == Assemble(ToInt(w), ToInt(h), ToInt(DEPTH), raster)
  {
    assert data[..|data|] == data;
    ReadsHeader(data, w, h, |data|, end);
    assert Body(data, end) == raster;
  }

  lemma AssembleExact(w: Option<int>, h: Option<int>, depth: Option<int>, width: nat, height: nat, raster: string)
    requires w == Some(width) && h == Some(height) && depth == Some(255) && |raster| == width * height * 3
    ensures Assemble(w, h, depth, raster) == Picture(width, height, raster)
  {
  }

  lemma AssembleShort(width: nat, height: nat, raster: string)
    requires |raster| < width * height * 3
    ensures Assemble(Some(width), Some(height), Some(255), raster) == Truncated
  {
  }

  /** Reading what the writer writes returns the width, the height and exactly the visible pixels' bytes. */
  lemma RoundTrip(c: Image)
    requires c.Valid() && c.Backed()
    ensures Parse(Written(c)) == Picture(c.width, c.height, Raster(c, c.height))
  {
    var data, raster, w, h := Written(c), Raster(c, c.height), Print(c.width), Print(c.height);
    HeaderLayout(c.width, c.height, raster);
    IntOfPrint(c.width);
    IntOfPrint(c.height);
    assert data[|Header(c.width, c.height)|..] == raster;
    ReadsWhole(data, w, h, raster, c.width, c.height);
  }

  /** A file cut anywhere before its end is rejected. */
  lemma CutRejected(c: Image, n: nat)
    requires c.Valid() && c.Backed() && n < |Written(c)|
    ensures !Parse(Written(c)[..n]).Picture?
  {
    var data, w, h := Written(c), Print(c.width), Print(c.height);
    HeaderLayout(c.width, c.height, Raster(c, c.height));
    IntOfPrint(c.width);
    IntOfPrint(c.height);
    MulPositive(c.width, c.height);
    assert |data| == 9 + |w| + |h| + c.width * c.height * 3;
    CutAnywhere(data, w, h, c.width, c.height, n);
  }

  /** The reader accepts what reached a stream exactly when the writer reported success. */
  lemma ReadableExactly(c: Image, room: nat)
    requires c.Valid() && c.Backed()
    ensures Parse(Kept(Written(c), room)).Picture? <==> |Written(c)| <= room
  {
    if room < |Written(c)| {
      CutRejected(c, room);
    } else {
      RoundTrip(c);
    }
  }

  lemma CutAnywhere(data: string, w: string, h: string, width: nat, height: nat, n: nat)
    requires HeaderAt(data, w, h) && ToInt(w) == Some(width) && ToInt(h) == Some(height)
    requires n < |data| == 9 + |w| + |h| + width * height * 3 && width * height > 0
    ensures !Parse(data[..n]).Picture?
  {
    if n >= 8 + |w| + |h| {
      ReadsHeader(data, w, h, n, 8 + |w| + |h|);
      IntOfPrint(255);
      AssembleShort(width, height, Body(data[..n], 8 + |w| + |h|));
    } else if n >= 2 {
      CutDepthRejected(data, w, h, n);
    }
  }

  /** Cut before the end of the depth: the third token is missing or is not 255. */
  lemma CutDepthRejected(data: string, w: string, h: string, n: nat)
    requires HeaderAt(data, w, h) && 2 <= n < 8 + |w| + |h|
    ensures !Parse(data[..n]).Picture?
  {
    var k := CutThird(data, w, h, n);
    DepthPrefixes(k);
    DepthDecides(data[..n]);
  }

  /** The third token is then a proper beginning of the depth. */
  lemma CutThird(data: string, w: string, h: string, n: nat) returns (k: nat)
    requires HeaderAt(data, w, h) && 2 <= n < 8 + |w| + |h|
    ensures k < 3 == |DEPTH| && Tokens(data[..n], 2, 3).0[2] == DEPTH[..k]
  {
    var from := 5 + |w| + |h|;
    k := if n < from then 0 else n - from;
    DepthPrefixes(k);
    DepthPiece(data, n, from, k);
    HeaderCut(data, w, h, n);
  }

  lemma DepthPiece(data: string, n: nat, from: nat, k: nat)
    requires 1 <= from && from + 3 <= |data| && data[from..from + 3] == DEPTH
    requires n < from + 3 && k == if n < from then 0 else n - from
    ensures Piece(data, n, from - 1, from + 3) == DEPTH[..k]
  {
  }

  lemma DepthDecides(data: string)
    requires |data| >= 2 && ToInt(Tokens(data, 2, 3).0[2]) != Some(255)
    ensures !Parse(data).Picture?
  {
  }

  lemma DepthPrefixes(k: nat)
    requires k < 3
    ensures |DEPTH| == 3 && ToInt(DEPTH[..k]) != Some(255)
  {
    DepthPrinted();
    IntOfPrint(2);
    IntOfPrint(25);
    IntOfDigits("");
    assert "255"[..0] == "" && "255"[..1] == "2" && "255"[..2] == "25";
  }

  lemma MulPositive(a: nat, b: nat)
    requires a > 0 && b > 0
    ensures a * b > 0
  {
  }

  /** Two canvases that agree on what is visible are written alike, whatever their padding and alpha. */
  lemma {:induction false} PaddingIgnored(c: Image, d: Image, rows: nat)
    requires c.Valid() && c.Backed() && d.Valid() && d.Backed()
    requires c.width == d.width && c.height == d.height && rows <= c.height
    requires forall row, column | 0 <= row < c.height && 0 <= column < c.width ::
               Triple(PixelOf(c, row, column)) == Triple(PixelOf(d, row, column))
    ensures Raster(c, rows) == Raster(d, rows)
  {
    if rows > 0 {
      PaddingIgnored(c, d, rows - 1);
      RowPaddingIgnored(c, d, rows - 1, c.width);
    }
  }

  lemma {:induction false} RowPaddingIgnored(c: Image, d: Image, row: nat, columns: nat)
    requires c.Valid() && c.Backed() && d.Valid() && d.Backed()
    requires c.width == d.width && c.height == d.height && row < c.height && columns <= c.width
    requires forall column | 0 <= column < c.width :: Triple(PixelOf(c, row, column)) == Triple(PixelOf(d, row, column))
    ensures RowBytes(c, row, columns) == RowBytes(d, row, columns)
  {
    if columns > 0 {
      RowPaddingIgnored(c, d, row, columns - 1);
    }
  }

  // --------------------------------------------------- other accepted headers

  /** Scanning does not see what lies before. */
  lemma {:induction false} FindAfter(a: string, rest: string, p: nat, stop: char -> bool, data: string)
    requires p <= |rest| && data == a + rest
    ensures Find(data, |a| + p, stop) == |a| + Find(rest, p, stop)
    decreases |rest| - p
  {
    if p < |rest| {
      assert data[|a| + p] == rest[p];
      FindAfter(a, rest, p + 1, stop, data);
    }
  }

  lemma TokensAtComment(data: string, p: nat, n: nat, q: nat, e: nat)
    requires n > 0 && p <= |data| && q == PastSpace(data, p) && q < |data| && data[q] == '#' && e == PastComment(data, q)
    ensures Tokens(data, p, n) == Tokens(data, e, n)
  {
  }

  lemma TokensAtToken(data: string, p: nat, n: nat, q: nat, e: nat)
    requires n > 0 && p <= |data| && q == PastSpace(data, p) && (q == |data| || data[q] != '#') && e == PastToken(data, q)
    ensures Tokens(data, p, n).0 == [data[q..e]] + Tokens(data, e, n - 1).0 && Tokens(data, p, n).1 == Tokens(data, e, n - 1).1
  {
  }

  /** Both texts read the same tokens from these positions, the ends as far apart as they are. */
  ghost predicate SameTokens(data: string, rest: string, shift: nat, p: nat, n: nat)
    requires p <= |rest| && shift + p <= |data|
  {
    Tokens(data, shift + p, n).0 == Tokens(rest, p, n).0 && Tokens(data, shift + p, n).1 == shift + Tokens(rest, p, n).1
  }

  lemma AfterComment(a: string, rest: string, p: nat, n: nat, data: string, q: nat, e: nat)
    requires n > 0 && p <= |rest| && data == a + rest
    requires q == PastSpace(rest, p) && q < |rest| && rest[q] == '#' && e == PastComment(rest, q) && SameTokens(data, rest, |a|, e, n)
    ensures SameTokens(data, rest, |a|, p, n)
  {
    FindAfter(a, rest, p, NotSpace, data);
    FindAfter(a, rest, q, EndsLine, data);
    TokensAtComment(rest, p, n, q, e);
    TokensAtComment(data, |a| + p, n, |a| + q, |a| + e);
  }

  lemma AfterToken(a: string, rest: string, p: nat, n: nat, data: string, q: nat, e: nat)
    requires n > 0 && p <= |rest| && data == a + rest
    requires q == PastSpace(rest, p) && (q == |rest| || rest[q] != '#') && e == PastToken(rest, q) && SameTokens(data, rest, |a|, e, n - 1)
    ensures SameTokens(data, rest, |a|, p, n)
  {
    TokenAfter(a, rest, p, data, q, e);
    TokensAtToken(rest, p, n, q, e);
    TokensAtToken(data, |a| + p, n, |a| + q, |a| + e);
  }

  lemma TokenAfter(a: string, rest: string, p: nat, data: string, q: nat, e: nat)
    requires p <= |rest| && data == a + rest && q == PastSpace(rest, p) && (q == |rest| || rest[q] != '#') && e == PastToken(rest, q)
    ensures |a| + q == PastSpace(data, |a| + p) && (|a| + q == |data| || data[|a| + q] != '#') && |a| + e == PastToken(data, |a| + q)
    ensures data[|a| + q..|a| + e] == rest[q..e]
  {
    FindAfter(a, rest, p, NotSpace, data);
    FindAfter(a, rest, q, IsSpace, data);
  }

  /** Nor do the tokens read from there on. */
  lemma {:induction false} TokensAfter(a: string, rest: string, p: nat, n: nat, data: string)
    requires p <= |rest| && data == a + rest
    ensures SameTokens(data, rest, |a|, p, n)
    decreases n, |rest| - p
  {
    if n > 0 {
      var q := PastSpace(rest, p);
      if q < |rest| && rest[q] == '#' {
        var e := PastComment(rest, q);
        TokensAfter(a, rest, e, n, data);
        AfterComment(a, rest, p, n, data, q, e);
      } else {
        var e := PastToken(rest, q);
        TokensAfter(a, rest, e, n - 1, data);
        AfterToken(a, rest, p, n, data, q, e);
      }
    }
  }

  /** Files with the same tokens and the same bytes behind them parse alike. */
  lemma ParsedAlike(a: string, b: string)
    requires |a| >= 2 && |b| >= 2 && a[..2] == "P6" && b[..2] == "P6"
    requires Tokens(a, 2, 3).0 == Tokens(b, 2, 3).0 && Body(a, Tokens(a, 2, 3).1) == Body(b, Tokens(b, 2, 3).1)
    ensures Parse(a) == Parse(b)
  {
    var t := Tokens(a, 2, 3).0;
    ParseBy(a, ToInt(t[0]), ToInt(t[1]), ToInt(t[2]), Tokens(a, 2, 3).1);
    ParseBy(b, ToInt(t[0]), ToInt(t[1]), ToInt(t[2]), Tokens(b, 2, 3).1);
  }

  lemma BodyAfter(a: string, rest: string, end: nat)
    ensures Body(a + rest, |a| + end) == Body(rest, end)
  {
    if end < |rest| {
      assert (a + rest)[|a| + end + 1..] == rest[end + 1..];
    }
  }

  /** A comment line right after the magic changes nothing, whatever it says. */
  lemma CommentSkipped(comment: string, rest: string)
    requires forall i | 0 <= i < |comment| :: !EndsLine(comment[i])
    ensures Parse("P6\n#" + comment + ("\n" + rest)) == Parse("P6" + ("\n" + rest))
  {
    var line, tail := "P6\n#" + comment, "\n" + rest;
    var data, plain := line + tail, "P6" + tail;
    CommentTokens(comment, rest, line, tail, data);
    TokensAfter("P6", tail, 0, 3, plain);
    BodyAfter(line, tail, Tokens(tail, 0, 3).1);
    BodyAfter("P6", tail, Tokens(tail, 0, 3).1);
    assert data[..2] == line[..2] == "P6" && plain[..2] == "P6";
    ParsedAlike(data, plain);
  }

  lemma CommentTokens(comment: string, rest: string, line: string, tail: string, data: string)
    requires line == "P6\n#" + comment && tail == "\n" + rest && data == line + tail
    requires forall i | 0 <= i < |comment| :: !EndsLine(comment[i])
    ensures Tokens(data, 2, 3).0 == Tokens(tail, 0, 3).0 && Tokens(data, 2, 3).1 == |line| + Tokens(tail, 0, 3).1
  {
    assert data[2] == '\n' && data[3] == '#' && data[|line|] == '\n';
    assert forall i | 0 <= i < |comment| :: data[4 + i] == comment[i];
    FindIs(data, 2, 3, NotSpace);
    FindIs(data, 3, |line|, EndsLine);
    TokensAtComment(data, 2, 3, 3, |line|);
    TokensAfter(line, tail, 0, 3, data);
  }

  /** The first stop is where a scan ends. */
  lemma {:induction false} FindIs(data: string, p: nat, q: nat, stop: char -> bool)
    requires p <= q < |data| && stop(data[q]) && forall i | p <= i < q :: !stop(data[i])
    ensures Find(data, p, stop) == q
    decreases q - p
  {
    if p < q {
      FindIs(data, p + 1, q, stop);
    }
  }

  /** Python's numbers may carry a sign. */
  lemma SignedDigits(sign: string, digits: string)
    requires (sign == "-" || sign == "+") && digits != [] && AllDigits(digits)
    ensures ToInt(sign + digits) == Some(if sign == "-" then 0 - Value(digits) else Value(digits))
  {
    var s := sign + digits;
    Untrimmed(s);
    assert s[1..] == digits;
    NumeralDigits(digits);
    assert IsDigit(digits[0]) && IsDigit(digits[|digits| - 1]);
  }

  lemma Untrimmed(s: string)
    requires s != [] && !Blank(s[0]) && !Blank(s[|s| - 1])
    ensures TrimRight(TrimLeft(s)) == s
  {
  }

  /** An accepted file began with the magic, and its raster is as long as its size says. */
  lemma AcceptedIsWhole(data: string)
    requires Parse(data).Picture? && Parse(data).width * Parse(data).height >= 0
    ensures |data| >= 2 && data[..2] == "P6" && |Parse(data).raster| == Parse(data).width * Parse(data).height * 3
  {
    var end := Tokens(data, 2, 3).1;
    AssembledLength(ToInt(Tokens(data, 2, 3).0[0]), ToInt(Tokens(data, 2, 3).0[1]), ToInt(Tokens(data, 2, 3).0[2]), Body(data, end));
  }

  lemma AssembledLength(w: Option<int>, h: Option<int>, depth: Option<int>, body: string)
    ensures var r := Assemble(w, h, depth, body);
            r.Picture? && r.width * r.height >= 0 ==> |r.raster| == r.width * r.height * 3
  {
  }

  /** The smallest file, byte for byte. */
  lemma TinyFile(p: Pixel)
    ensures Written(Image([p], 1, 1, 1)) ==
            "P6\n1 1\n255\n" + [(p % 256) as char, (p / 256 % 256) as char, (p / 65536 % 256) as char]
  {
    var c := Image([p], 1, 1, 1);
    assert Print(1) == "1";
    assert RowBytes(c, 0, 0) == "" && Raster(c, 0) == "";
    assert RowBytes(c, 0, 1) == Triple(p);
    assert Raster(c, 1) == Triple(p);
  }
}
