/**
 * The framebuffer inspector of fboInspector.ts: reading a framebuffer back
 * into top-down image rows (GL rows are bottom-up), one-pixel inspection with
 * a hex colour, attachment inspection and per-channel histograms, each of
 * which binds the framebuffer it looks at and restores the previous binding.
 */
module FboInspector {
  import opened Wrappers
  import Text

  /** A framebuffer object, by identity; `None` is the default framebuffer. */
  type Framebuffer = nat

  type Byte = b: int | 0 <= b < 256

  /** The attachment points the inspector queries. */
  datatype Attachment = Color(index: nat) | Depth | Stencil

  /** FRAMEBUFFER_ATTACHMENT_OBJECT_TYPE: what is attached at a point. */
  datatype ObjectType = NoObject | TextureObject | RenderbufferObject

  /**
   * The part of a GL context the inspector uses. Pixel reads and attachment
   * queries answer for the framebuffer bound at the time, given by the
   * oracles below; every `bindFramebuffer` call is logged.
   */
  class Context {
    var binding: Option<Framebuffer>
    ghost var binds: seq<Option<Framebuffer>>
    const isWebGL2: bool
    /** Width and height of the VIEWPORT parameter. */
    const viewport: (nat, nat)
    /** The MAX_COLOR_ATTACHMENTS parameter (WebGL2 only). */
    const maxColorAttachments: nat
    /** Channel `c` of pixel (`x`, `y`) of a framebuffer, counted from its bottom row, as an RGBA/UNSIGNED_BYTE read gives it. */
    const texel: (Option<Framebuffer>, int, int, nat) -> Byte
    const attachmentType: (Option<Framebuffer>, Attachment) -> ObjectType
    /** Whether FRAMEBUFFER_ATTACHMENT_OBJECT_NAME is a (non-null) object. */
    const attachmentNamed: (Option<Framebuffer>, Attachment) -> bool

    constructor(binding: Option<Framebuffer>, isWebGL2: bool, viewport: (nat, nat), maxColorAttachments: nat,
                texel: (Option<Framebuffer>, int, int, nat) -> Byte,
                attachmentType: (Option<Framebuffer>, Attachment) -> ObjectType,
                attachmentNamed: (Option<Framebuffer>, Attachment) -> bool)
      ensures this.binding == binding && binds == []
      ensures this.isWebGL2 == isWebGL2 && this.viewport == viewport && this.maxColorAttachments == maxColorAttachments
      ensures this.texel == texel && this.attachmentType == attachmentType && this.attachmentNamed == attachmentNamed
    {
      this.binding := binding;
      this.binds := [];
      this.isWebGL2 := isWebGL2;
      this.viewport := viewport;
      this.maxColorAttachments := maxColorAttachments;
      this.texel := texel;
      this.attachmentType := attachmentType;
      this.attachmentNamed := attachmentNamed;
    }

    method BindFramebuffer(fb: Option<Framebuffer>)
      modifies this
      ensures binding == fb && binds == old(binds) + [fb]
    {
      binding := fb;
      binds := binds + [fb];
    }
  }

  datatype Options = Options(maxTextureSize: Option<int>, enableFloatInspection: Option<bool>)

  datatype ImageData = ImageData(width: nat, height: nat, data: seq<Byte>)

  datatype PixelInfo = PixelInfo(x: int, y: int, bytes: seq<Byte>, hex: string)

  datatype FBOInfo = FBOInfo(width: nat, height: nat, colorAttachments: nat, hasDepth: bool, hasStencil: bool)

  datatype Channel = R | G | B | A

  /** The byte offset of a channel within a pixel. */
  function Offset(c: Channel): (o: nat)
    ensures o < 4
  {
    match c
    case R => 0
    case G => 1
    case B => 2
    case A => 3
  }

  /** The width and height the inspector assumes for every framebuffer object (texture sizes are not tracked). */
  const ASSUMED_SIZE: nat := 512

  /** The size of the texture-based `maxTextureSize` when the option is missing or 0. */
  const DEFAULT_MAX_TEXTURE_SIZE: int := 4096

  // ---------------------------------------------------------------------------
  // Pixel layout
  // ---------------------------------------------------------------------------

  /** `a * n` by repeated addition, so that row arithmetic stays linear for the solver. */
  function Mul(a: nat, n: nat): nat {
    if a == 0 then 0 else Mul(a - 1, n) + n
  }

  lemma {:induction false} MulIsProduct(a: nat, n: nat)
    ensures Mul(a, n) == a * n
  {
    if a > 0 {
      MulIsProduct(a - 1, n);
    }
  }

  lemma {:induction false} MulMono(a: nat, b: nat, n: nat)
    requires a <= b
    ensures Mul(a, n) <= Mul(b, n)
    decreases b - a
  {
    if a < b {
      MulMono(a, b - 1, n);
    }
  }

  /** Byte `c` of pixel `x` in row `y` of a `w`-wide RGBA image is byte `x * 4 + c` of row `y`, of `w * 4` bytes. */
  lemma PixelIndex(y: nat, x: nat, c: nat, w: nat)
    requires x < w && c < 4
    ensures 0 <= y * w && (y * w + x) * 4 + c == Mul(y, w * 4) + (x * 4 + c)
    ensures x * 4 + c < w * 4 && (x * 4 + c) / 4 == x && (x * 4 + c) % 4 == c
  {
    MulIsProduct(y, w * 4);
  }

  lemma ImageSize(w: nat, h: nat)
    ensures w * h * 4 == Mul(h, w * 4)
  {
    MulIsProduct(h, w * 4);
  }

  /** The first `y` rows of the flipped image of `h` rows of `n` bytes: rows `h - 1` down to `h - y` of the original. */
  function FlippedPrefix(px: seq<Byte>, n: nat, h: nat, y: nat): (f: seq<Byte>)
    requires |px| == Mul(h, n) && y <= h
    ensures |f| == Mul(y, n)
  {
    if y == 0 then []
    else
      MulMono(h - y + 1, h, n);
      FlippedPrefix(px, n, h, y - 1) + px[Mul(h - y, n)..Mul(h - y + 1, n)]
  }

  /** The rows of an image of `h` rows of `n` bytes, last row first. */
  function Flipped(px: seq<Byte>, n: nat, h: nat): (f: seq<Byte>)
    requires |px| == Mul(h, n)
    ensures |f| == |px|
  {
    FlippedPrefix(px, n, h, h)
  }

  /** Byte `j` of row `k` of the flipped image is byte `j` of row `r = h - 1 - k` of the original. */
  lemma {:induction false} FlippedPrefixAt(px: seq<Byte>, n: nat, h: nat, y: nat, k: nat, r: nat, j: nat)
    requires |px| == Mul(h, n) && y <= h && k < y && r == h - 1 - k && j < n
    ensures Mul(k, n) + j < Mul(y, n) && Mul(r, n) + j < |px|
    ensures FlippedPrefix(px, n, h, y)[Mul(k, n) + j] == px[Mul(r, n) + j]
    decreases y
  {
    MulMono(k + 1, y, n);
    MulMono(r + 1, h, n);
    MulMono(h - y + 1, h, n);
    assert Mul(h - y + 1, n) == Mul(h - y, n) + n;
    var prefix := FlippedPrefix(px, n, h, y - 1);
    var row := px[Mul(h - y, n)..Mul(h - y + 1, n)];
    assert FlippedPrefix(px, n, h, y) == prefix + row;
    if k < y - 1 {
      MulMono(k + 1, y - 1, n);
      FlippedPrefixAt(px, n, h, y - 1, k, r, j);
      assert (prefix + row)[Mul(k, n) + j] == prefix[Mul(k, n) + j];
    } else {
      assert h - y == r && Mul(k, n) == |prefix|;
      assert (prefix + row)[Mul(k, n) + j] == row[j];
    }
  }

  /** Byte `j` of row `y` of the flipped image is byte `j` of row `r = h - 1 - y` of the original. */
  lemma FlippedRow(px: seq<Byte>, n: nat, h: nat, y: nat, r: nat, j: nat)
    requires |px| == Mul(h, n) && y < h && r == h - 1 - y && j < n
    ensures Mul(y, n) + j < |px| && Mul(r, n) + j < |px|
    ensures Flipped(px, n, h)[Mul(y, n) + j] == px[Mul(r, n) + j]
  {
    FlippedPrefixAt(px, n, h, h, y, r, j);
  }

  /** Byte `c` of pixel (`x`, `y`) of the flipped image is byte `c` of pixel (`x`, `r`) of the original, `r` being `h - 1 - y`. */
  lemma FlippedAt(px: seq<Byte>, w: nat, h: nat, y: nat, r: nat, x: nat, c: nat)
    requires |px| == Mul(h, w * 4) && y < h && r == h - 1 - y && x < w && c < 4
    ensures 0 <= (y * w + x) * 4 + c < |px| && 0 <= (r * w + x) * 4 + c < |px|
    ensures Flipped(px, w * 4, h)[(y * w + x) * 4 + c] == px[(r * w + x) * 4 + c]
  {
    PixelIndex(y, x, c, w);
    PixelIndex(r, x, c, w);
    FlippedRow(px, w * 4, h, y, r, x * 4 + c);
  }

  /** One row of a read: channel `j % 4` of pixel `j / 4` of row `r`. */
  function ReadRow(texel: (Option<Framebuffer>, int, int, nat) -> Byte, fb: Option<Framebuffer>, w: nat, r: nat): (row: seq<Byte>)
    ensures |row| == w * 4
  {
    seq(w * 4, j requires 0 <= j < w * 4 => texel(fb, j / 4, r, j % 4))
  }

  /** The bytes `readPixels(0, 0, w, h, RGBA, UNSIGNED_BYTE)` writes: rows bottom-up, four channels per pixel. */
  function ReadRGBA(texel: (Option<Framebuffer>, int, int, nat) -> Byte, fb: Option<Framebuffer>, w: nat, h: nat): (px: seq<Byte>)
    ensures |px| == Mul(h, w * 4)
  {
    if h == 0 then []
    else ReadRGBA(texel, fb, w, h - 1) + ReadRow(texel, fb, w, h - 1)
  }

  lemma {:induction false} ReadAt(texel: (Option<Framebuffer>, int, int, nat) -> Byte, fb: Option<Framebuffer>, w: nat, h: nat, r: nat, j: nat)
    requires r < h && j < w * 4
    ensures Mul(r, w * 4) + j < |ReadRGBA(texel, fb, w, h)|
    ensures ReadRGBA(texel, fb, w, h)[Mul(r, w * 4) + j] == texel(fb, j / 4, r, j % 4)
    decreases h
  {
    MulMono(r + 1, h, w * 4);
    if r < h - 1 {
      ReadAt(texel, fb, w, h - 1, r, j);
    }
  }

  // ---------------------------------------------------------------------------
  // Histogram
  // ---------------------------------------------------------------------------

  const BINS: nat := 256

  function Zeros(): (z: seq<nat>)
    ensures |z| == BINS
  {
    seq(BINS, _ => 0)
  }

  /** The histogram of channel offset `o` over the first `n` pixels of `data`. */
  function Hist(data: seq<Byte>, o: nat, n: nat): (r: seq<nat>)
    requires o < 4 && 4 * n <= |data|
    ensures |r| == BINS
  {
    if n == 0 then Zeros()
    else
      var bins := Hist(data, o, n - 1);
      var v := data[4 * (n - 1) + o];
      bins[v := bins[v] + 1]
  }

  /** The number of the first `n` pixels of `data` whose channel at offset `o` is `v`. */
  function CountValue(data: seq<Byte>, o: nat, n: nat, v: Byte): nat
    requires o < 4 && 4 * n <= |data|
  {
    if n == 0 then 0 else CountValue(data, o, n - 1, v) + (if data[4 * (n - 1) + o] == v then 1 else 0)
  }

  function Sum(s: seq<nat>): nat {
    if s == [] then 0 else Sum(s[..|s| - 1]) + s[|s| - 1]
  }

  /** Bin `v` counts the pixels whose channel is `v`. */
  lemma {:induction false} HistBin(data: seq<Byte>, o: nat, n: nat, v: Byte)
    requires o < 4 && 4 * n <= |data|
    ensures Hist(data, o, n)[v] == CountValue(data, o, n, v)
  {
    if n > 0 {
      HistBin(data, o, n - 1, v);
    }
  }

  lemma {:induction false} SumUpdate(s: seq<nat>, i: nat, x: nat)
    requires i < |s|
    ensures Sum(s[i := x]) + s[i] == Sum(s) + x
    decreases |s|
  {
    var t := s[i := x];
    if i < |s| - 1 {
      assert t[..|t| - 1] == s[..|s| - 1][i := x];
      SumUpdate(s[..|s| - 1], i, x);
    } else {
      assert t[..|t| - 1] == s[..|s| - 1];
    }
  }

  lemma {:induction false} SumZeros(k: nat)
    ensures Sum(seq(k, _ => 0)) == 0
  {
    if k > 0 {
      assert seq(k, _ => 0)[..k - 1] == seq(k - 1, _ => 0);
      SumZeros(k - 1);
    }
  }

  /** The bins add up to the number of pixels counted. */
  lemma {:induction false} HistTotal(data: seq<Byte>, o: nat, n: nat)
    requires o < 4 && 4 * n <= |data|
    ensures Sum(Hist(data, o, n)) == n
  {
    if n == 0 {
      SumZeros(BINS);
    } else {
      var bins := Hist(data, o, n - 1);
      var v := data[4 * (n - 1) + o];
      HistTotal(data, o, n - 1);
      SumUpdate(bins, v, bins[v] + 1);
    }
  }

  // ---------------------------------------------------------------------------
  // Specifications of the inspector's operations
  // ---------------------------------------------------------------------------

  /** The size a capture reads: the assumed size for a framebuffer object, the viewport for the default one. */
  function CaptureSize(viewport: (nat, nat), fb: Option<Framebuffer>): (nat, nat) {
    if fb.Some? then (ASSUMED_SIZE, ASSUMED_SIZE) else viewport
  }

  /** What `captureFramebuffer(fb)` returns, for a context with this viewport and these pixels. */
  function Capture(viewport: (nat, nat), texel: (Option<Framebuffer>, int, int, nat) -> Byte, fb: Option<Framebuffer>): Option<ImageData> {
    var (w, h) := CaptureSize(viewport, fb);
    if w == 0 || h == 0 then None
    else Some(ImageData(w, h, Flipped(ReadRGBA(texel, fb, w, h), w * 4, h)))
  }

  /** A capture is empty exactly for an empty viewport of the default framebuffer; otherwise it has the size it read, four bytes per pixel. */
  lemma CaptureShape(viewport: (nat, nat), texel: (Option<Framebuffer>, int, int, nat) -> Byte, fb: Option<Framebuffer>)
    ensures Capture(viewport, texel, fb).None? <==> fb.None? && (viewport.0 == 0 || viewport.1 == 0)
    ensures Capture(viewport, texel, fb).Some? ==>
      var img := Capture(viewport, texel, fb).value;
      (img.width, img.height) == CaptureSize(viewport, fb) && |img.data| == img.width * img.height * 4
  {
    var (w, h) := CaptureSize(viewport, fb);
    ImageSize(w, h);
  }

  /** Reading `h` rows bottom-up and flipping them puts pixel (`x`, `h - 1 - y`) of the framebuffer at (`x`, `y`). */
  lemma ReadFlipped(texel: (Option<Framebuffer>, int, int, nat) -> Byte, fb: Option<Framebuffer>, w: nat, h: nat, y: nat, x: nat, c: nat)
    requires y < h && x < w && c < 4
    ensures 0 <= (y * w + x) * 4 + c < |Flipped(ReadRGBA(texel, fb, w, h), w * 4, h)|
    ensures Flipped(ReadRGBA(texel, fb, w, h), w * 4, h)[(y * w + x) * 4 + c] == texel(fb, x, h - 1 - y, c)
  {
    var r: nat := h - 1 - y;
    var px := ReadRGBA(texel, fb, w, h);
    PixelIndex(y, x, c, w);
    FlippedAt(px, w, h, y, r, x, c);
    PixelIndex(r, x, c, w);
    ReadAt(texel, fb, w, h, r, x * 4 + c);
    assert px[Mul(r, w * 4) + (x * 4 + c)] == texel(fb, x, r, c);
    assert px[(r * w + x) * 4 + c] == texel(fb, x, r, c);
  }

  /** The same for an image whose data is such a read, flipped. */
  lemma ImageFlips(texel: (Option<Framebuffer>, int, int, nat) -> Byte, fb: Option<Framebuffer>, img: ImageData, y: nat, x: nat, c: nat)
    requires img.data == Flipped(ReadRGBA(texel, fb, img.width, img.height), img.width * 4, img.height)
    requires y < img.height && x < img.width && c < 4
    ensures 0 <= (y * img.width + x) * 4 + c < |img.data|
    ensures img.data[(y * img.width + x) * 4 + c] == texel(fb, x, img.height - 1 - y, c)
  {
    ReadFlipped(texel, fb, img.width, img.height, y, x, c);
  }

  /**
   * Byte `c` of pixel (`x`, `y`) of a capture, counted from the top row, is
   * channel `c` of the framebuffer's pixel (`x`, `height - 1 - y`), counted
   * from the bottom row.
   */
  lemma CaptureFlips(viewport: (nat, nat), texel: (Option<Framebuffer>, int, int, nat) -> Byte, fb: Option<Framebuffer>, img: ImageData, y: nat, x: nat, c: nat)
    requires Capture(viewport, texel, fb) == Some(img) && y < img.height && x < img.width && c < 4
    ensures 0 <= (y * img.width + x) * 4 + c < |img.data|
    ensures img.data[(y * img.width + x) * 4 + c] == texel(fb, x, img.height - 1 - y, c)
  {
    ImageFlips(texel, fb, img, y, x, c);
  }

  /** `'#'` and two lower-case hex digits for each of red, green and blue. */
  function HexColor(r: Byte, g: Byte, b: Byte): string {
    "#" + Text.Hex2(r) + Text.Hex2(g) + Text.Hex2(b)
  }

  /** The hex colour has seven characters and its digit pairs read back as the three bytes. */
  lemma HexColorReads(r: Byte, g: Byte, b: Byte)
    ensures |HexColor(r, g, b)| == 7 && HexColor(r, g, b)[0] == '#'
    ensures forall i :: 1 <= i < 7 ==> Text.IsRadixDigit(HexColor(r, g, b)[i], 16)
    ensures Text.DigitValue(HexColor(r, g, b)[1]) * 16 + Text.DigitValue(HexColor(r, g, b)[2]) == r
    ensures Text.DigitValue(HexColor(r, g, b)[3]) * 16 + Text.DigitValue(HexColor(r, g, b)[4]) == g
    ensures Text.DigitValue(HexColor(r, g, b)[5]) * 16 + Text.DigitValue(HexColor(r, g, b)[6]) == b
  {
    Text.Hex2RoundTrip(r);
    Text.Hex2RoundTrip(g);
    Text.Hex2RoundTrip(b);
    HexDigitsRead(Text.Hex2(r), Text.Hex2(g), Text.Hex2(b), r, g, b);
  }

  /** `'#'` followed by three pairs of hex digits denoting `r`, `g` and `b`. */
  lemma HexDigitsRead(p: string, q: string, u: string, r: int, g: int, b: int)
    requires |p| == |q| == |u| == 2
    requires Text.IsRadixDigit(p[0], 16) && Text.IsRadixDigit(p[1], 16) && Text.DigitValue(p[0]) * 16 + Text.DigitValue(p[1]) == r
    requires Text.IsRadixDigit(q[0], 16) && Text.IsRadixDigit(q[1], 16) && Text.DigitValue(q[0]) * 16 + Text.DigitValue(q[1]) == g
    requires Text.IsRadixDigit(u[0], 16) && Text.IsRadixDigit(u[1], 16) && Text.DigitValue(u[0]) * 16 + Text.DigitValue(u[1]) == b
    ensures |"#" + p + q + u| == 7 && ("#" + p + q + u)[0] == '#'
    ensures forall i :: 1 <= i < 7 ==> Text.IsRadixDigit(("#" + p + q + u)[i], 16)
    ensures Text.DigitValue(("#" + p + q + u)[1]) * 16 + Text.DigitValue(("#" + p + q + u)[2]) == r
    ensures Text.DigitValue(("#" + p + q + u)[3]) * 16 + Text.DigitValue(("#" + p + q + u)[4]) == g
    ensures Text.DigitValue(("#" + p + q + u)[5]) * 16 + Text.DigitValue(("#" + p + q + u)[6]) == b
  {
    var h := "#" + p + q + u;
    assert h[1] == p[0] && h[2] == p[1] && h[3] == q[0] && h[4] == q[1] && h[5] == u[0] && h[6] == u[1];
  }

  /** The color attachment points the inspector looks at: one in WebGL1, MAX_COLOR_ATTACHMENTS in WebGL2. */
  function ColorPoints(isWebGL2: bool, maxColorAttachments: nat): nat {
    if isWebGL2 then maxColorAttachments else 1
  }

  /** The attachment point queried at step `i`: COLOR_ATTACHMENT0 + i in WebGL2, COLOR_ATTACHMENT0 in WebGL1. */
  function ColorPoint(isWebGL2: bool, i: nat): Attachment {
    Color(if isWebGL2 then i else 0)
  }

  /** How many of the first `n` points hold a texture. */
  function TextureCount(gl: Context, fb: Option<Framebuffer>, n: nat): nat {
    if n == 0 then 0
    else TextureCount(gl, fb, n - 1) + (if gl.attachmentType(fb, ColorPoint(gl.isWebGL2, n - 1)) == TextureObject then 1 else 0)
  }

  /** Whether one of the first `n` points holds a texture with a name. */
  predicate NamedTexture(gl: Context, fb: Option<Framebuffer>, n: nat) {
    exists i :: 0 <= i < n && gl.attachmentType(fb, ColorPoint(gl.isWebGL2, i)) == TextureObject && gl.attachmentNamed(fb, ColorPoint(gl.isWebGL2, i))
  }

  // ---------------------------------------------------------------------------
  // The inspector
  // ---------------------------------------------------------------------------

  class FBOInspector {
    const gl: Context
    var maxTextureSize: int
    var enableFloatInspection: bool

    /** `maxTextureSize` falls back to 4096 when missing or 0; `enableFloatInspection` to true when missing. */
    constructor(gl: Context, options: Options)
      ensures this.gl == gl
      ensures maxTextureSize == if options.maxTextureSize.None? || options.maxTextureSize.value == 0 then DEFAULT_MAX_TEXTURE_SIZE else options.maxTextureSize.value
      ensures enableFloatInspection == options.enableFloatInspection.GetOr(true)
    {
      this.gl := gl;
      maxTextureSize := if options.maxTextureSize.None? || options.maxTextureSize.value == 0 then DEFAULT_MAX_TEXTURE_SIZE else options.maxTextureSize.value;
      enableFloatInspection := options.enableFloatInspection.GetOr(true);
    }

    /** `captureFramebuffer`: bind, read, flip the rows into a new image, restore the binding. */
    method CaptureFramebuffer(framebuffer: Option<Framebuffer>) returns (r: Option<ImageData>)
      modifies gl
      ensures r == Capture(gl.viewport, gl.texel, framebuffer)
      ensures gl.binding == old(gl.binding)
      ensures gl.binds == old(gl.binds) + [framebuffer, old(gl.binding)]
    {
      var current := gl.binding;
      gl.BindFramebuffer(framebuffer);
      ghost var bound := gl.binds;
      var (width, height) := CaptureSize(gl.viewport, framebuffer);
      if width == 0 || height == 0 {
        r := None;
      } else {
        var pixels := ReadRGBA(gl.texel, gl.binding, width, height);
        ImageSize(width, height);
        var data := FlipRows(pixels, width, height);
        r := Some(ImageData(width, height, data[..]));
      }
      assert gl.binds == bound;
      gl.BindFramebuffer(current);
      assert old(gl.binds) + [framebuffer] + [current] == old(gl.binds) + [framebuffer, current];
    }

    /** `inspectPixel`: the bytes of one pixel and their hex colour, read with the framebuffer bound. */
    method InspectPixel(x: int, y: int, framebuffer: Option<Framebuffer>) returns (info: PixelInfo)
      modifies gl
      ensures info.x == x && info.y == y
      ensures info.bytes == [gl.texel(framebuffer, x, y, 0), gl.texel(framebuffer, x, y, 1), gl.texel(framebuffer, x, y, 2), gl.texel(framebuffer, x, y, 3)]
      ensures info.hex == HexColor(info.bytes[0], info.bytes[1], info.bytes[2])
      ensures gl.binding == old(gl.binding)
      ensures gl.binds == old(gl.binds) + [framebuffer, old(gl.binding)]
    {
      var current := gl.binding;
      gl.BindFramebuffer(framebuffer);
      var pixels := [gl.texel(gl.binding, x, y, 0), gl.texel(gl.binding, x, y, 1), gl.texel(gl.binding, x, y, 2), gl.texel(gl.binding, x, y, 3)];
      var hex := HexColor(pixels[0], pixels[1], pixels[2]);
      info := PixelInfo(x, y, pixels, hex);
      gl.BindFramebuffer(current);
    }

    /** `getFramebufferInfo`: count texture color attachments and look at the depth and stencil points. */
    method GetFramebufferInfo(framebuffer: Framebuffer) returns (info: FBOInfo)
      modifies gl
      ensures var fb, n := Some(framebuffer), ColorPoints(gl.isWebGL2, gl.maxColorAttachments);
        info.colorAttachments == TextureCount(gl, fb, n) &&
        (info.width == info.height == if NamedTexture(gl, fb, n) then ASSUMED_SIZE else 0) &&
        info.hasDepth == (gl.attachmentType(fb, Depth) != NoObject) &&
        info.hasStencil == (gl.attachmentType(fb, Stencil) != NoObject)
      ensures gl.binding == old(gl.binding)
      ensures gl.binds == old(gl.binds) + [Some(framebuffer), old(gl.binding)]
    {
      var current := gl.binding;
      gl.BindFramebuffer(Some(framebuffer));
      var width, height, colorAttachments := 0, 0, 0;
      var maxColorAttachments := ColorPoints(gl.isWebGL2, gl.maxColorAttachments);
      for i := 0 to maxColorAttachments
        invariant gl.binding == Some(framebuffer) && gl.binds == old(gl.binds) + [Some(framebuffer)]
        invariant colorAttachments == TextureCount(gl, gl.binding, i)
        invariant width == height == if NamedTexture(gl, gl.binding, i) then ASSUMED_SIZE else 0
      {
        var attachment := ColorPoint(gl.isWebGL2, i);
        if gl.attachmentType(gl.binding, attachment) == TextureObject {
          colorAttachments := colorAttachments + 1;
          if width == 0 {
            if gl.attachmentNamed(gl.binding, attachment) {
              width, height := ASSUMED_SIZE, ASSUMED_SIZE;
            }
          }
        }
        NamedTextureStep(gl, gl.binding, i);
      }
      var hasDepth := gl.attachmentType(gl.binding, Depth) != NoObject;
      var hasStencil := gl.attachmentType(gl.binding, Stencil) != NoObject;
      info := FBOInfo(width, height, colorAttachments, hasDepth, hasStencil);
      gl.BindFramebuffer(current);
    }

    /** `createHistogram` for one of the r/g/b/a channels: 256 bins, all zero when nothing could be captured. */
    method CreateHistogram(framebuffer: Option<Framebuffer>, channel: Channel) returns (histogram: array<nat>)
      modifies gl
      ensures fresh(histogram) && histogram.Length == BINS
      ensures var img := Capture(gl.viewport, gl.texel, framebuffer);
        histogram[..] == if img.None? then Zeros() else Hist(img.value.data, Offset(channel), |img.value.data| / 4)
      ensures gl.binding == old(gl.binding)
    {
      var imageData := CaptureFramebuffer(framebuffer);
      if imageData.None? {
        histogram := new nat[BINS](_ => 0);
        assert histogram[..] == Zeros();
      } else {
        histogram := CountBytes(imageData.value.data, Offset(channel));
      }
    }
  }

  /** The loop of `createHistogram`: one increment per pixel, in the bin of its channel value. */
  method CountBytes(data: seq<Byte>, o: nat) returns (histogram: array<nat>)
    requires o < 4
    ensures fresh(histogram) && histogram[..] == Hist(data, o, |data| / 4)
  {
    histogram := new nat[BINS](_ => 0);
    assert histogram[..] == Zeros();
    var i := 0;
    while i + 4 <= |data|
      invariant i % 4 == 0 && i <= |data| && i / 4 <= |data| / 4
      invariant histogram.Length == BINS && histogram[..] == Hist(data, o, i / 4)
    {
      var value := data[i + o];
      histogram[value] := histogram[value] + 1;
      i := i + 4;
    }
  }

  /** Whether a named texture has been seen after one more attachment point. */
  lemma NamedTextureStep(gl: Context, fb: Option<Framebuffer>, i: nat)
    ensures NamedTexture(gl, fb, i + 1) <==>
      NamedTexture(gl, fb, i) ||
      (gl.attachmentType(fb, ColorPoint(gl.isWebGL2, i)) == TextureObject && gl.attachmentNamed(fb, ColorPoint(gl.isWebGL2, i)))
  {
    if NamedTexture(gl, fb, i + 1) && !NamedTexture(gl, fb, i) {
      var j :| 0 <= j < i + 1 && gl.attachmentType(fb, ColorPoint(gl.isWebGL2, j)) == TextureObject && gl.attachmentNamed(fb, ColorPoint(gl.isWebGL2, j));
      assert j == i;
    }
  }

  /** The nested row/column loops of `captureFramebuffer`, writing the flipped image into a new array. */
  method FlipRows(pixels: seq<Byte>, width: nat, height: nat) returns (data: array<Byte>)
    requires |pixels| == Mul(height, width * 4)
    ensures fresh(data) && data[..] == Flipped(pixels, width * 4, height)
  {
    ghost var flipped := Flipped(pixels, width * 4, height);
    ImageSize(width, height);
    data := new Byte[width * height * 4](_ => 0);
    for y := 0 to height
      invariant Mul(y, width * 4) <= |flipped|
      invariant forall k :: 0 <= k < Mul(y, width * 4) ==> data[k] == flipped[k]
    {
      MulMono(y + 1, height, width * 4);
      for x := 0 to width
        invariant forall k :: 0 <= k < Mul(y, width * 4) + x * 4 ==> data[k] == flipped[k]
      {
        var srcIdx := ((height - 1 - y) * width + x) * 4;
        var dstIdx := (y * width + x) * 4;
        PixelIndex(y, x, 0, width);
        CopyPixel(data, pixels, width, height, y, height - 1 - y, x, srcIdx, dstIdx);
      }
    }
  }

  /** One pixel of the flip: four bytes of source row `r = height - 1 - y` into row `y`. */
  method CopyPixel(data: array<Byte>, pixels: seq<Byte>, width: nat, height: nat, y: nat, r: nat, x: nat, srcIdx: int, dstIdx: int)
    requires |pixels| == Mul(height, width * 4) && data.Length == |pixels| && y < height && r == height - 1 - y && x < width
    requires srcIdx == (r * width + x) * 4 && dstIdx == (y * width + x) * 4
    modifies data
    ensures 0 <= dstIdx && dstIdx + 4 <= data.Length
    ensures forall k :: 0 <= k < data.Length && !(dstIdx <= k < dstIdx + 4) ==> data[k] == old(data[k])
    ensures forall k :: dstIdx <= k < dstIdx + 4 ==> data[k] == Flipped(pixels, width * 4, height)[k]
  {
    ghost var flipped := Flipped(pixels, width * 4, height);
    FlippedAt(pixels, width, height, y, r, x, 0);
    FlippedAt(pixels, width, height, y, r, x, 1);
    FlippedAt(pixels, width, height, y, r, x, 2);
    FlippedAt(pixels, width, height, y, r, x, 3);
    data[dstIdx] := pixels[srcIdx];
    data[dstIdx + 1] := pixels[srcIdx + 1];
    data[dstIdx + 2] := pixels[srcIdx + 2];
    data[dstIdx + 3] := pixels[srcIdx + 3];
    assert data[dstIdx] == flipped[dstIdx] && data[dstIdx + 1] == flipped[dstIdx + 1];
    assert data[dstIdx + 2] == flipped[dstIdx + 2] && data[dstIdx + 3] == flipped[dstIdx + 3];
  }
}
