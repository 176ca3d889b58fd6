/** Frames, numpy-style slices, and the two pixel operations the detectors perform:
    writing a blurred patch back into a slice of the frame, and painting a drawing
    command (`cv2.rectangle`, `cv2.putText`) whose rasterisation is left abstract. */
module Imaging {
  import opened PyValues

  newtype byte = x: int | 0 <= x < 256

  /** One colour sample in OpenCV's BGR channel order. */
  datatype Pixel = Pixel(b: byte, g: byte, r: byte)

  const BLACK := Pixel(0, 0, 0)

  /** An `ih x iw x 3` buffer: `height` rows of `width` pixels. */
  datatype Image = Image(height: nat, width: nat, rows: seq<seq<Pixel>>) {
    predicate Valid() {
      |rows| == height && forall r :: 0 <= r < |rows| ==> |rows[r]| == width
    }
  }

  type Frame = f: Image | f.Valid() witness Image(0, 0, [])

  /** The pixel at row `r`, column `c`. */
  function At(f: Frame, r: nat, c: nat): Pixel
    requires r < f.height && c < f.width
  {
    f.rows[r][c]
  }

  predicate SameShape(f: Frame, g: Frame) {
    f.height == g.height && f.width == g.width
  }

  /** Two frames of one shape that agree at every pixel are equal. */
  lemma FrameExt(f: Frame, g: Frame)
    requires SameShape(f, g)
    requires forall r, c :: 0 <= r < f.height && 0 <= c < f.width ==> At(f, r, c) == At(g, r, c)
    ensures f == g
  {
    forall r | 0 <= r < f.height
      ensures f.rows[r] == g.rows[r]
    {
      assert forall c :: 0 <= c < f.width ==> f.rows[r][c] == At(f, r, c);
    }
  }

  /** The frame currently held in a 2-D pixel array: rows are `Length0`, columns `Length1`. */
  function Pixels(a: array2<Pixel>): (f: Frame)
    reads a
    ensures f.height == a.Length0 && f.width == a.Length1
    ensures forall r, c :: 0 <= r < a.Length0 && 0 <= c < a.Length1 ==> At(f, r, c) == a[r, c]
  {
    Image(a.Length0, a.Length1,
          seq(a.Length0, r reads a => seq(a.Length1, c reads a => if 0 <= r < a.Length0 && 0 <= c < a.Length1 then a[r, c] else BLACK)))
  }

  /** The array holds `f` when it has `f`'s shape and agrees with it at every pixel. */
  lemma PixelsIs(a: array2<Pixel>, f: Frame)
    requires f.height == a.Length0 && f.width == a.Length1
    requires forall r, c :: 0 <= r < a.Length0 && 0 <= c < a.Length1 ==> a[r, c] == At(f, r, c)
    ensures Pixels(a) == f
  {
    FrameExt(Pixels(a), f);
  }

  /** A contiguous run of indices `lo, lo + 1, ..., lo + len - 1` along one axis. */
  datatype Span = Span(lo: nat, len: nat) {
    predicate Contains(i: int) {
      lo <= i < lo + len
    }
    function End(): nat {
      lo + len
    }
  }

  /** The indices numpy's `a[lo:hi]` selects along an axis of length `n`, for
      non-negative `lo` and `hi`: both ends are clamped to `n`, and an inverted
      pair selects nothing. */
  function Slice(lo: nat, hi: nat, n: nat): (s: Span)
    ensures s.End() <= n
    ensures forall i :: s.Contains(i) <==> lo <= i < hi && i < n
  {
    var start := if lo < n then lo else n;
    var stop := if hi < n then hi else n;
    Span(start, if start < stop then stop - start else 0)
  }

  /** The frame of the given shape whose pixel at `(r, c)` is `px(r, c)`. */
  function Build(h: nat, w: nat, px: (nat, nat) -> Pixel): (f: Frame)
    ensures f.height == h && f.width == w
    ensures forall r, c :: 0 <= r < h && 0 <= c < w ==> At(f, r, c) == px(r, c)
  {
    Image(h, w, seq(h, r => seq(w, c => if 0 <= r && 0 <= c then px(r, c) else BLACK)))
  }

  /** `frame[rows, cols]`: the sub-image under a pair of slices. */
  function Region(f: Frame, rows: Span, cols: Span): (p: Frame)
    requires rows.End() <= f.height && cols.End() <= f.width
    ensures p.height == rows.len && p.width == cols.len
    ensures forall i, j :: 0 <= i < rows.len && 0 <= j < cols.len ==> At(p, i, j) == At(f, rows.lo + i, cols.lo + j)
  {
    Build(rows.len, cols.len, (i: nat, j: nat) => if i < rows.len && j < cols.len then At(f, rows.lo + i, cols.lo + j) else BLACK)
  }

  /** `cv2.blur(patch, (k, k))` pixel by pixel: the blurred value at row `i`, column `j`
      of `patch` with a `k x k` box kernel. The kernel arithmetic belongs to OpenCV. */
  type BlurFn = (Frame, nat, nat, nat) -> Pixel

  /** The box-filter size both detectors pass to `cv2.blur`. */
  const BLUR_KERNEL: nat := 50

  /** The blurred copy of a patch; `cv2.blur` keeps the patch's shape. */
  function Blurred(p: Frame, blur: BlurFn): (q: Frame)
    ensures SameShape(p, q)
    ensures forall i, j :: 0 <= i < p.height && 0 <= j < p.width ==> At(q, i, j) == blur(p, BLUR_KERNEL, i, j)
  {
    Build(p.height, p.width, (i: nat, j: nat) => blur(p, BLUR_KERNEL, i, j))
  }

  /** `frame[rows, cols] = patch` */
  function WriteBack(f: Frame, rows: Span, cols: Span, p: Frame): (g: Frame)
    requires rows.End() <= f.height && cols.End() <= f.width
    requires p.height == rows.len && p.width == cols.len
    ensures SameShape(f, g)
    ensures forall r, c :: 0 <= r < f.height && 0 <= c < f.width ==>
              At(g, r, c) == if rows.Contains(r) && cols.Contains(c) then At(p, r - rows.lo, c - cols.lo) else At(f, r, c)
  {
    Build(f.height, f.width, (r: nat, c: nat) =>
      if r < f.height && c < f.width then
        (if rows.Contains(r) && cols.Contains(c) then At(p, r - rows.lo, c - cols.lo) else At(f, r, c))
      else BLACK)
  }

  /** The blur effect on one region: the patch under the slices is blurred and written
      back into exactly those slices. An empty patch makes `cv2.blur` raise, which is
      the `None` result. */
  function BlurInPlace(f: Frame, rows: Span, cols: Span, blur: BlurFn): (g: Option<Frame>)
    requires rows.End() <= f.height && cols.End() <= f.width
    ensures g.Some? <==> rows.len > 0 && cols.len > 0
    ensures g.Some? ==> SameShape(f, g.value)
    ensures g.Some? ==> forall r, c :: 0 <= r < f.height && 0 <= c < f.width && !(rows.Contains(r) && cols.Contains(c)) ==>
                          At(g.value, r, c) == At(f, r, c)
    ensures g.Some? ==> forall r, c :: rows.Contains(r) && cols.Contains(c) ==>
                          At(g.value, r, c) == blur(Region(f, rows, cols), BLUR_KERNEL, r - rows.lo, c - cols.lo)
  {
    if rows.len == 0 || cols.len == 0 then None
    else Some(WriteBack(f, rows, cols, Blurred(Region(f, rows, cols), blur)))
  }

  /** A pixel inside the region takes the blurred patch's value at its offset from the
      region's corner `(x0, y0)`. */
  lemma BlurAt(f: Frame, rows: Span, cols: Span, blur: BlurFn, r: int, c: int, y0: nat, x0: nat)
    requires rows.End() <= f.height && cols.End() <= f.width
    requires rows.Contains(r) && cols.Contains(c) && rows.lo == y0 && cols.lo == x0
    ensures At(BlurInPlace(f, rows, cols, blur).value, r, c) == blur(Region(f, rows, cols), BLUR_KERNEL, r - y0, c - x0)
  {
  }

  /** A pixel coordinate as OpenCV takes it: `x` is the column, `y` the row. */
  datatype Point = Point(x: int, y: int)

  /** The drawing calls the detectors make. A negative thickness fills the shape. */
  datatype DrawCmd =
    | Rectangle(pt1: Point, pt2: Point, color: Pixel, thickness: int)
    | PutText(text: string, org: Point, font: nat, scale: real, color: Pixel, thickness: int)

  /** OpenCV's rasteriser: the colour a command leaves at row `r`, column `c`, if it paints there. */
  type Raster = (DrawCmd, nat, nat) -> Option<Pixel>

  /** The frame after one drawing call: painted pixels take the command's colour,
      every other pixel keeps its value. */
  function Paint(f: Frame, cmd: DrawCmd, raster: Raster): (g: Frame)
    ensures SameShape(f, g)
    ensures forall r, c :: 0 <= r < f.height && 0 <= c < f.width && raster(cmd, r, c).None? ==> At(g, r, c) == At(f, r, c)
    ensures forall r, c :: 0 <= r < f.height && 0 <= c < f.width && raster(cmd, r, c).Some? ==> At(g, r, c) == raster(cmd, r, c).value
  {
    Build(f.height, f.width, (r: nat, c: nat) =>
      if r < f.height && c < f.width then
        (match raster(cmd, r, c) case Some(p) => p case None => At(f, r, c))
      else BLACK)
  }

  /** Several drawing calls, in order. */
  function PaintAll(f: Frame, cmds: seq<DrawCmd>, raster: Raster): (g: Frame)
    ensures SameShape(f, g)
    decreases |cmds|
  {
    if cmds == [] then f else PaintAll(Paint(f, cmds[0], raster), cmds[1..], raster)
  }

  /** A pixel that no command in the list paints keeps its value through all of them. */
  lemma {:induction false} PaintAllKeeps(f: Frame, cmds: seq<DrawCmd>, raster: Raster, r: nat, c: nat)
    requires r < f.height && c < f.width
    requires forall k :: 0 <= k < |cmds| ==> raster(cmds[k], r, c).None?
    ensures At(PaintAll(f, cmds, raster), r, c) == At(f, r, c)
    decreases |cmds|
  {
    if cmds != [] {
      var g := Paint(f, cmds[0], raster);
      assert raster(cmds[0], r, c).None?;
      assert forall k :: 0 <= k < |cmds[1..]| ==> cmds[1..][k] == cmds[k + 1];
      PaintAllKeeps(g, cmds[1..], raster, r, c);
    }
  }

  /** `frame[rows, cols] = patch`, in place. */
  method WritePatch(a: array2<Pixel>, rows: Span, cols: Span, patch: Frame)
    requires rows.End() <= a.Length0 && cols.End() <= a.Length1
    requires patch.height == rows.len && patch.width == cols.len
    modifies a
    ensures Pixels(a) == WriteBack(old(Pixels(a)), rows, cols, patch)
  {
    ghost var before := Pixels(a);
    forall r, c | rows.lo <= r < rows.End() && cols.lo <= c < cols.End() {
      a[r, c] := At(patch, r - rows.lo, c - cols.lo);
    }
    ghost var target := WriteBack(before, rows, cols, patch);
    forall r, c | 0 <= r < a.Length0 && 0 <= c < a.Length1
      ensures a[r, c] == At(target, r, c)
    {
      if !(rows.Contains(r) && cols.Contains(c)) {
        assert a[r, c] == old(a[r, c]) == At(before, r, c);
      }
    }
    PixelsIs(a, target);
  }

  /** `frame[rows, cols] = cv2.blur(frame[rows, cols], (50, 50))`, in place. Returns
      false, touching nothing, when the patch is empty and `cv2.blur` raises. */
  method BlurWriteBack(a: array2<Pixel>, rows: Span, cols: Span, blur: BlurFn) returns (ok: bool)
    requires rows.End() <= a.Length0 && cols.End() <= a.Length1
    modifies a
    ensures ok == (rows.len > 0 && cols.len > 0)
    ensures BlurInPlace(old(Pixels(a)), rows, cols, blur) == if ok then Some(Pixels(a)) else None
    ensures !ok ==> Pixels(a) == old(Pixels(a))
  {
    if rows.len == 0 || cols.len == 0 {
      return false;
    }
    var patch := Blurred(Region(Pixels(a), rows, cols), blur);
    WritePatch(a, rows, cols, patch);
    ok := true;
  }

  /** One OpenCV drawing call on the frame, in place. */
  method Draw(a: array2<Pixel>, cmd: DrawCmd, raster: Raster)
    modifies a
    ensures Pixels(a) == Paint(old(Pixels(a)), cmd, raster)
  {
    ghost var before := Pixels(a);
    forall r, c | 0 <= r < a.Length0 && 0 <= c < a.Length1 && raster(cmd, r, c).Some? {
      a[r, c] := raster(cmd, r, c).value;
    }
    ghost var target := Paint(before, cmd, raster);
    forall r, c | 0 <= r < a.Length0 && 0 <= c < a.Length1
      ensures a[r, c] == At(target, r, c)
    {
      if raster(cmd, r, c).None? {
        assert a[r, c] == old(a[r, c]) == At(before, r, c);
      }
    }
    PixelsIs(a, target);
  }

  /** Several OpenCV drawing calls on the frame, in place and in order. */
  method DrawAll(a: array2<Pixel>, cmds: seq<DrawCmd>, raster: Raster)
    modifies a
    ensures Pixels(a) == PaintAll(old(Pixels(a)), cmds, raster)
    decreases |cmds|
  {
    if cmds != [] {
      Draw(a, cmds[0], raster);
      DrawAll(a, cmds[1..], raster);
    }
  }
}
