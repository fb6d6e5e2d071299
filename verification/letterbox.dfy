/**
 `resize_image` of the command-line scripts: the image, already scaled by
 Pillow's `ImageOps.contain`, is pasted on a black canvas of the target size
 at `((W - w) // 2, (H - h) // 2)`.
 */
module Letterbox {
  import opened Presets

  /**
   `(outer - inner) // 2`. Python floors; Dafny's `/` is Euclidean, and the
   two agree for the positive divisor 2, also when `outer < inner`.
   */
  function HalfGap(outer: int, inner: int): (gap: int)
    ensures 2 * gap <= outer - inner < 2 * gap + 2
  {
    (outer - inner) / 2
  }

  /** A black canvas with a pasted image whose top-left corner is at `(left, top)`. */
  datatype Frame = Frame(canvas: Size, image: Size, left: int, top: int)

  /**
   `resize_image(path, target)` once the image has been scaled to
   `contained`: the canvas is always exactly the target size, and the image
   is pasted at floor-half of the spare room on each axis.
   */
  function Fit(target: Size, contained: Size): (frame: Frame)
    ensures frame.canvas == target && frame.image == contained
    ensures 2 * frame.left <= target.width - contained.width < 2 * frame.left + 2
    ensures 2 * frame.top <= target.height - contained.height < 2 * frame.top + 2
  {
    Frame(target, contained, HalfGap(target.width, contained.width), HalfGap(target.height, contained.height))
  }

  /** What `ImageOps.contain` returns: a non-empty image no larger than the box. */
  predicate FitsIn(image: Size, box: Size) {
    0 < image.width <= box.width && 0 < image.height <= box.height
  }

  /** Right and bottom padding of a frame. */
  function RightPad(frame: Frame): int { frame.canvas.width - frame.image.width - frame.left }

  function BottomPad(frame: Frame): int { frame.canvas.height - frame.image.height - frame.top }

  /**
   A contained image lies wholly inside the canvas, and the padding on
   opposite sides differs by at most one pixel, the odd pixel going right
   or below.
   */
  lemma FitCentres(target: Size, contained: Size)
    requires FitsIn(contained, target)
    ensures var f := Fit(target, contained);
      && 0 <= f.left && f.left + contained.width <= target.width
      && 0 <= f.top && f.top + contained.height <= target.height
      && 0 <= RightPad(f) - f.left <= 1
      && 0 <= BottomPad(f) - f.top <= 1
  {
  }

  /** An image that already has the target size is pasted at the origin with no padding. */
  lemma FitExactSize(target: Size)
    ensures var f := Fit(target, target);
      f.left == 0 && f.top == 0 && RightPad(f) == 0 && BottomPad(f) == 0
  {
  }
}
