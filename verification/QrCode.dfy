/**
 Rendering a QR bitmap as pixels and as SVG rectangles (internal/qrcode/qrcode.go).

 The bitmap comes from the encoder library.  As in image/draw, setting a pixel outside the image does
 nothing, so the picture is right for every margin, negative ones included, and for ragged bitmaps.
 */
module QrCode {
  import opened Options
  import opened Text

  type Byte = b: int | 0 <= b < 256

  datatype Rgba = Rgba(r: Byte, g: Byte, b: Byte, a: Byte)

  datatype Settings = Settings(size: int, margin: int, foreground: string, background: string)

  datatype Error = InvalidColor | InvalidSize

  // ---------------------------------------------------------------- colors

  function ParseHex(s: string): (v: Option<nat>)
    ensures v.Some? <==> forall i :: 0 <= i < |s| ==> HexDigit(s[i]).Some?
  {
    if s == [] then Some(0) else
    var high := ParseHex(s[..|s| - 1]);
    var low := HexDigit(s[|s| - 1]);
    if high.Some? && low.Some? then Some(16 * high.value + low.value) else None
  }

  function TrimHash(s: string): string {
    if s != [] && s[0] == '#' then s[1..] else s
  }

  function ParseHexColor(s: string): Option<Rgba> {
    var digits := TrimHash(s);
    if |digits| != 6 then None
    else match ParseHex(digits)
      case None => None
      case Some(v) => Some(Rgba(v / 65536 % 256, v / 256 % 256, v % 256, 255))
  }

  function ToHex(d: nat): char
    requires d < 16
  {
    if d < 10 then '0' + d as char else 'a' + (d - 10) as char
  }

  function Hex2(b: Byte): string {
    [ToHex(b / 16), ToHex(b % 16)]
  }

  lemma HexDigitOfToHex(d: nat)
    requires d < 16
    ensures HexDigit(ToHex(d)) == Some(d)
  {
  }

  lemma ParseHexSnoc(s: string, d: nat)
    requires d < 16 && ParseHex(s).Some?
    ensures ParseHex(s + [ToHex(d)]) == Some(16 * ParseHex(s).value + d)
  {
    assert (s + [ToHex(d)])[..|s|] == s;
    HexDigitOfToHex(d);
  }

  lemma ParseHexByte(s: string, b: Byte)
    requires ParseHex(s).Some?
    ensures ParseHex(s + Hex2(b)) == Some(256 * ParseHex(s).value + b)
  {
    ParseHexSnoc(s, b / 16);
    ParseHexSnoc(s + [ToHex(b / 16)], b % 16);
    assert s + Hex2(b) == s + [ToHex(b / 16)] + [ToHex(b % 16)];
  }

  lemma Channels(r: Byte, g: Byte, b: Byte)
    ensures var v := 256 * (256 * r + g) + b;
      v / 65536 % 256 == r && v / 256 % 256 == g && v % 256 == b
  {
    var v := 256 * (256 * r + g) + b;
    assert v / 256 == 256 * r + g;
    assert v / 65536 == r;
  }

  /** RRGGBB is read back channel by channel, with or without '#'. */
  lemma ColorRoundTrip(r: Byte, g: Byte, b: Byte)
    ensures ParseHexColor(Hex2(r) + Hex2(g) + Hex2(b)) == Some(Rgba(r, g, b, 255))
    ensures ParseHexColor("#" + (Hex2(r) + Hex2(g) + Hex2(b))) == Some(Rgba(r, g, b, 255))
  {
    var s := Hex2(r) + Hex2(g) + Hex2(b);
    ParseHexByte([], r);
    assert [] + Hex2(r) == Hex2(r);
    ParseHexByte(Hex2(r), g);
    ParseHexByte(Hex2(r) + Hex2(g), b);
    Channels(r, g, b);
    assert ("#" + s)[1..] == s && s[0] != '#';
  }

  /** A color is six hexadecimal digits, in either case, behind at most one '#', two for each channel. */
  lemma ColorIs(s: string, d: seq<nat>)
    requires |d| == 6 && forall i :: 0 <= i < 6 ==> d[i] < 16
    requires |s| == 6 && forall i :: 0 <= i < 6 ==> HexDigit(s[i]) == Some(d[i])
    ensures var c := Rgba(16 * d[0] + d[1], 16 * d[2] + d[3], 16 * d[4] + d[5], 255);
      ParseHexColor(s) == Some(c) && ParseHexColor("#" + s) == Some(c)
  {
    var hash := "#" + s;
    assert hash[1..] == s;
    assert HexDigit('#') == None;
    HexValueSnoc(s, 1, d[0]);
    HexValueSnoc(s, 2, d[1]);
    HexValueSnoc(s, 3, d[2]);
    HexValueSnoc(s, 4, d[3]);
    HexValueSnoc(s, 5, d[4]);
    HexValueSnoc(s, 6, d[5]);
    assert s[..6] == s && s[..0] == "";
    Channels(16 * d[0] + d[1], 16 * d[2] + d[3], 16 * d[4] + d[5]);
  }

  lemma HexValueSnoc(s: string, n: nat, d: nat)
    requires 1 <= n <= |s| && HexDigit(s[n - 1]) == Some(d)
    ensures ParseHex(s[..n - 1]).Some? ==> ParseHex(s[..n]) == Some(16 * ParseHex(s[..n - 1]).value + d)
  {
    assert s[..n][..n - 1] == s[..n - 1];
  }

  lemma NoColorIff(s: string)
    ensures ParseHexColor(s) == None <==>
      var digits := if s != "" && s[0] == '#' then s[1..] else s;
      |digits| != 6 || exists i :: 0 <= i < 6 && HexDigit(digits[i]) == None
  {
  }

  // ---------------------------------------------------------------- pixels

  /** Module (row, col) exists and is dark. */
  predicate Dark(bitmap: seq<seq<bool>>, row: int, col: int) {
    0 <= row < |bitmap| && 0 <= col < |bitmap[row]| && bitmap[row][col]
  }

  /** The modules painted so far when the loops stand at (row, col). */
  predicate Before(r: int, c: int, row: int, col: int) {
    r < row || (r == row && c < col)
  }

  function ModuleCount(bitmap: seq<seq<bool>>, margin: int): int {
    |bitmap| + 2 * margin
  }

  function PixelsPerModule(size: int, moduleCount: int): (p: int)
    requires 0 < moduleCount && 0 < size
    ensures 1 <= p
  {
    if size / moduleCount < 1 then 1 else size / moduleCount
  }

  /** As many pixels as fit, but at least one. */
  lemma PixelsAreTheMost(size: int, moduleCount: int)
    requires 0 < moduleCount && 0 < size
    ensures size < moduleCount ==> PixelsPerModule(size, moduleCount) == 1
    ensures moduleCount <= size ==>
      var p := PixelsPerModule(size, moduleCount); p * moduleCount <= size < (p + 1) * moduleCount
  {
    QuotientIs(size, moduleCount, size / moduleCount);
    QuotientIs(size, moduleCount, 0);
    assert 0 <= size / moduleCount;
  }

  lemma QuotientIs(x: int, p: int, q: int)
    requires 1 <= p
    ensures q * p <= x < q * p + p <==> x / p == q
  {
    var d, r := x / p, x % p;
    assert x == d * p + r && 0 <= r < p;
    if q < d {
      assert (q + 1) * p <= d * p;
    } else if d < q {
      assert (d + 1) * p <= q * p;
    }
  }

  /** Size less a module's worth of rounding: the picture fills the wanted size as far as whole pixels go. */
  lemma PictureFillsSize(size: int, moduleCount: int)
    requires 1 <= moduleCount <= size
    ensures var actual := PixelsPerModule(size, moduleCount) * moduleCount;
      size - moduleCount < actual <= size
  {
    var p, r := size / moduleCount, size % moduleCount;
    assert size == moduleCount * p + r;
    assert 1 <= p;
    assert p * moduleCount == moduleCount * p;
  }

  /** With a quiet zone of at least nothing and a square bitmap no write misses the image. */
  lemma SquareStaysInside(n: nat, row: nat, col: nat, margin: int, p: int)
    requires row < n && col < n && 0 <= margin && 1 <= p
    ensures 0 <= (col + margin) * p && (col + margin) * p + p <= p * (n + 2 * margin)
    ensures 0 <= (row + margin) * p && (row + margin) * p + p <= p * (n + 2 * margin)
  {
    assert (col + margin) * p + p == (col + margin + 1) * p;
    assert (row + margin) * p + p == (row + margin + 1) * p;
    Monotone(col + margin + 1, n + 2 * margin, p);
    Monotone(row + margin + 1, n + 2 * margin, p);
    Monotone(0, col + margin, p);
    Monotone(0, row + margin, p);
  }

  lemma Monotone(a: int, b: int, p: int)
    requires a <= b && 0 <= p
    ensures a * p <= b * p == p * b
  {
  }

  method SetPixel(img: array2<Rgba>, x: int, y: int, c: Rgba)
    modifies img
    ensures forall i, j :: 0 <= i < img.Length0 && 0 <= j < img.Length1 ==>
      img[i, j] == if i == x && j == y then c else old(img[i, j])
  {
    if 0 <= x < img.Length0 && 0 <= y < img.Length1 {
      img[x, y] := c;
    }
  }

  /** Fill the square of side p at (x0, y0). */
  method PaintSquare(img: array2<Rgba>, x0: int, y0: int, p: nat, c: Rgba)
    modifies img
    ensures forall i, j :: 0 <= i < img.Length0 && 0 <= j < img.Length1 ==>
      img[i, j] == if x0 <= i < x0 + p && y0 <= j < y0 + p then c else old(img[i, j])
  {
    for y := y0 to y0 + p
      invariant forall i, j :: 0 <= i < img.Length0 && 0 <= j < img.Length1 ==>
        img[i, j] == if x0 <= i < x0 + p && y0 <= j < y then c else old(img[i, j])
    {
      for x := x0 to x0 + p
        invariant forall i, j :: 0 <= i < img.Length0 && 0 <= j < img.Length1 ==>
          img[i, j] == if (x0 <= i < x0 + p && y0 <= j < y) || (x0 <= i < x && j == y) then c else old(img[i, j])
      {
        SetPixel(img, x, y, c);
      }
    }
  }

  /** Pixel (x, y) has the foreground color exactly when the module under it,
      (y / p - margin, x / p - margin), exists and is dark. */
  ghost predicate Pictures(img: array2<Rgba>, bitmap: seq<seq<bool>>, m: int, p: int, fg: Rgba, bg: Rgba)
    requires 1 <= p
    reads img
  {
    forall x, y :: 0 <= x < img.Length0 && 0 <= y < img.Length1 ==>
      img[x, y] == if Dark(bitmap, y / p - m, x / p - m) then fg else bg
  }

  /** The picture before PNG encoding. */
  method GeneratePNG(bitmap: seq<seq<bool>>, opts: Settings) returns (r: Result<array2<Rgba>, Error>)
    ensures r == Err(InvalidColor) <==> ParseHexColor(opts.foreground) == None || ParseHexColor(opts.background) == None
    ensures r == Err(InvalidSize) <==>
      && ParseHexColor(opts.foreground).Some? && ParseHexColor(opts.background).Some?
      && (ModuleCount(bitmap, opts.margin) <= 0 || opts.size <= 0)
    ensures r.Ok? ==>
      var p := PixelsPerModule(opts.size, ModuleCount(bitmap, opts.margin));
      && r.value.Length0 == p * ModuleCount(bitmap, opts.margin) == r.value.Length1
      && Pictures(r.value, bitmap, opts.margin, p,
                  ParseHexColor(opts.foreground).value, ParseHexColor(opts.background).value)
  {
    var fg := ParseHexColor(opts.foreground);
    if fg == None {
      return Err(InvalidColor);
    }
    var bg := ParseHexColor(opts.background);
    if bg == None {
      return Err(InvalidColor);
    }
    var m := opts.margin;
    var moduleCount := |bitmap| + 2 * m;
    if moduleCount <= 0 || opts.size <= 0 {
      return Err(InvalidSize);
    }
    var img := Paint(bitmap, opts.size, m, fg.value, bg.value);
    r := Ok(img);
  }

  method Paint(bitmap: seq<seq<bool>>, size: int, m: int, fg: Rgba, bg: Rgba) returns (img: array2<Rgba>)
    requires 0 < ModuleCount(bitmap, m) && 0 < size
    ensures var p := PixelsPerModule(size, ModuleCount(bitmap, m));
      img.Length0 == p * ModuleCount(bitmap, m) == img.Length1 && Pictures(img, bitmap, m, p, fg, bg)
  {
    var moduleCount := |bitmap| + 2 * m;
    var p := size / moduleCount;
    if p < 1 {
      p := 1;
    }
    var actualSize := p * moduleCount;
    Monotone(0, moduleCount, p);
    img := new Rgba[actualSize, actualSize]((_, _) => bg);
    PaintSquare(img, 0, 0, actualSize, bg);
    PaintModules(img, bitmap, m, p, fg, bg);
  }

  method PaintModules(img: array2<Rgba>, bitmap: seq<seq<bool>>, m: int, p: int, fg: Rgba, bg: Rgba)
    requires 1 <= p && Painted(img, bitmap, 0, 0, m, p, fg, bg)
    modifies img
    ensures Painted(img, bitmap, |bitmap|, 0, m, p, fg, bg)
  {
    for row := 0 to |bitmap|
      invariant Painted(img, bitmap, row, 0, m, p, fg, bg)
    {
      for col := 0 to |bitmap[row]|
        invariant Painted(img, bitmap, row, col, m, p, fg, bg)
      {
        if bitmap[row][col] {
          PaintModule(img, bitmap, row, col, m, p, fg, bg);
        }
      }
    }
  }

  ghost predicate Painted(
    img: array2<Rgba>, bitmap: seq<seq<bool>>, row: int, col: int, m: int, p: int, fg: Rgba, bg: Rgba)
    requires 1 <= p
    reads img
  {
    forall x, y :: 0 <= x < img.Length0 && 0 <= y < img.Length1 ==>
      img[x, y] == if Dark(bitmap, y / p - m, x / p - m) && Before(y / p - m, x / p - m, row, col) then fg else bg
  }

  method PaintModule(
    img: array2<Rgba>, bitmap: seq<seq<bool>>, row: int, col: int, m: int, p: int, fg: Rgba, bg: Rgba)
    requires 1 <= p && Dark(bitmap, row, col) && Painted(img, bitmap, row, col, m, p, fg, bg)
    modifies img
    ensures Painted(img, bitmap, row, col + 1, m, p, fg, bg)
  {
    var x0 := (col + m) * p;
    var y0 := (row + m) * p;
    PaintSquare(img, x0, y0, p, fg);
    forall x, y | 0 <= x < img.Length0 && 0 <= y < img.Length1
      ensures img[x, y] ==
        if Dark(bitmap, y / p - m, x / p - m) && Before(y / p - m, x / p - m, row, col + 1) then fg else bg
    {
      QuotientIs(x, p, col + m);
      QuotientIs(y, p, row + m);
    }
  }

  // ---------------------------------------------------------------- SVG

  datatype Rect = Rect(x: int, y: int, width: int, height: int, fill: string)

  /** The document before formatting: viewBox side, width and height, background and module rectangles. */
  datatype Svg = Svg(dim: int, size: int, background: Rect, rects: seq<Rect>)

  function ModuleRect(row: int, col: int, margin: int, fill: string): Rect {
    Rect(col + margin, row + margin, 1, 1, fill)
  }

  /** Rectangles in reading order, so none is drawn twice. */
  ghost predicate ReadingOrder(rects: seq<Rect>) {
    forall i, j :: 0 <= i < j < |rects| ==> Before(rects[i].y, rects[i].x, rects[j].y, rects[j].x)
  }

  /** The rectangles are exactly the dark modules shifted by the margin, each once. */
  ghost predicate AllDrawn(rects: seq<Rect>, bitmap: seq<seq<bool>>, m: int, fill: string) {
    && ReadingOrder(rects)
    && (forall t :: t in rects ==> t == ModuleRect(t.y - m, t.x - m, m, fill) && Dark(bitmap, t.y - m, t.x - m))
    && (forall row, col :: Dark(bitmap, row, col) ==> ModuleRect(row, col, m, fill) in rects)
  }

  /** One unit rectangle for each dark module, shifted by the margin, and nothing else. */
  method GenerateSVG(bitmap: seq<seq<bool>>, opts: Settings) returns (r: Result<Svg, Error>)
    ensures r == Err(InvalidColor) <==> ParseHexColor(opts.foreground) == None || ParseHexColor(opts.background) == None
    ensures r == Err(InvalidSize) <==>
      && ParseHexColor(opts.foreground).Some? && ParseHexColor(opts.background).Some?
      && (ModuleCount(bitmap, opts.margin) <= 0 || opts.size <= 0)
    ensures r.Ok? ==>
      && r.value.dim == ModuleCount(bitmap, opts.margin) && r.value.size == opts.size
      && r.value.background == Rect(0, 0, r.value.dim, r.value.dim, opts.background)
      && AllDrawn(r.value.rects, bitmap, opts.margin, opts.foreground)
      && (forall t :: t in r.value.rects ==> t.width == 1 && t.height == 1 && t.fill == opts.foreground)
      && (forall i, j :: 0 <= i < j < |r.value.rects| ==> r.value.rects[i] != r.value.rects[j])
  {
    if ParseHexColor(opts.foreground) == None || ParseHexColor(opts.background) == None {
      return Err(InvalidColor);
    }
    var m := opts.margin;
    var dim := |bitmap| + 2 * m;
    if dim <= 0 || opts.size <= 0 {
      return Err(InvalidSize);
    }
    var rects := DrawModules(bitmap, m, opts.foreground);
    r := Ok(Svg(dim, opts.size, Rect(0, 0, dim, dim, opts.background), rects));
  }

  method DrawModules(bitmap: seq<seq<bool>>, m: int, fill: string) returns (rects: seq<Rect>)
    ensures AllDrawn(rects, bitmap, m, fill)
  {
    rects := [];
    for row := 0 to |bitmap|
      invariant Drawn(rects, bitmap, row, 0, m, fill)
    {
      for col := 0 to |bitmap[row]|
        invariant Drawn(rects, bitmap, row, col, m, fill)
      {
        if bitmap[row][col] {
          rects := DrawOne(rects, bitmap, row, col, m, fill);
        }
      }
    }
  }

  method DrawOne(before: seq<Rect>, bitmap: seq<seq<bool>>, row: int, col: int, m: int, fill: string)
    returns (rects: seq<Rect>)
    requires Dark(bitmap, row, col) && Drawn(before, bitmap, row, col, m, fill)
    ensures Drawn(rects, bitmap, row, col + 1, m, fill)
  {
    var t := ModuleRect(row, col, m, fill);
    rects := before + [t];
    forall i | 0 <= i < |before| ensures Before(before[i].y, before[i].x, t.y, t.x) {
      assert before[i] in before;
    }
  }

  ghost predicate Drawn(rects: seq<Rect>, bitmap: seq<seq<bool>>, row: int, col: int, m: int, fill: string) {
    && ReadingOrder(rects)
    && forall t :: t in rects <==>
         t == ModuleRect(t.y - m, t.x - m, m, fill) &&
         Dark(bitmap, t.y - m, t.x - m) && Before(t.y - m, t.x - m, row, col)
  }

  /** Both renderings show the same picture: a pixel is dark exactly when an SVG rectangle covers the
      module it belongs to. */
  lemma SamePicture(bitmap: seq<seq<bool>>, rects: seq<Rect>, m: int, fill: string, p: int, x: int, y: int)
    requires 1 <= p && AllDrawn(rects, bitmap, m, fill)
    ensures Dark(bitmap, y / p - m, x / p - m) <==>
      exists t :: t in rects && t.x * p <= x < t.x * p + t.width * p && t.y * p <= y < t.y * p + t.height * p
  {
    if Dark(bitmap, y / p - m, x / p - m) {
      var t := ModuleRect(y / p - m, x / p - m, m, fill);
      QuotientIs(x, p, x / p);
      QuotientIs(y, p, y / p);
      assert t in rects;
    }
    if t :| t in rects && t.x * p <= x < t.x * p + t.width * p && t.y * p <= y < t.y * p + t.height * p {
      QuotientIs(x, p, t.x);
      QuotientIs(y, p, t.y);
    }
  }
}
