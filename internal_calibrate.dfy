/**
 * internal_calibrate.py, `auto_crop_document`: the integer arithmetic that widens the detected
 * document box by a padding, keeps it inside the image and refuses a crop that is too small.
 */
module InternalCalibrate {
  import opened Common

  /** A box by its top-left corner and its size, in pixels. */
  datatype Box = Box(x: int, y: int, w: int, h: int)

  /** The area `crop` is given: left, top, right and bottom edges. */
  datatype Crop = Crop(left: int, top: int, right: int, bottom: int)

  /**
   * The padding step: the corner moves up and left by the padding but not past 0, and the size
   * grows by twice the padding but not past the image's right and bottom edges.
   */
  function Padded(b: Box, width: nat, height: nat, padX: nat, padY: nat): (r: Box)
    ensures r.x >= 0 && r.y >= 0
    ensures r.x + r.w <= width && r.y + r.h <= height
    ensures r.w <= b.w + 2 * padX && r.h <= b.h + 2 * padY
    ensures b.x >= padX ==> r.x == b.x - padX
    ensures b.x < padX ==> r.x == 0
    ensures b.y >= padY ==> r.y == b.y - padY
    ensures b.y < padY ==> r.y == 0
  {
    var x := if 0 > b.x - padX then 0 else b.x - padX;
    var y := if 0 > b.y - padY then 0 else b.y - padY;
    var w := if width - x < b.w + 2 * padX then width - x else b.w + 2 * padX;
    var h := if height - y < b.h + 2 * padY then height - y else b.h + 2 * padY;
    Box(x, y, w, h)
  }

  /** The size is only cut where the padded box would leave the image. */
  lemma PaddedSize(b: Box, width: nat, height: nat, padX: nat, padY: nat)
    ensures var r := Padded(b, width, height, padX, padY);
      (r.x + b.w + 2 * padX <= width ==> r.w == b.w + 2 * padX) &&
      (r.x + b.w + 2 * padX > width ==> r.x + r.w == width) &&
      (r.y + b.h + 2 * padY <= height ==> r.h == b.h + 2 * padY) &&
      (r.y + b.h + 2 * padY > height ==> r.y + r.h == height)
  {
  }

  /**
   * The rest of the fragment: `None` when the original image is returned because the padded box
   * is narrower than half the image (`int(width * 0.5)`) or lower than half of it; otherwise the
   * crop area, which lies inside the image.
   */
  function CropArea(b: Box, width: nat, height: nat, padX: nat, padY: nat): (r: Option<Crop>)
    ensures var p := Padded(b, width, height, padX, padY);
      r.None? <==> p.w < width / 2 || p.h < height / 2
    ensures r.Some? ==> 0 <= r.value.left <= r.value.right <= width
    ensures r.Some? ==> 0 <= r.value.top <= r.value.bottom <= height
    ensures r.Some? ==> r.value.right - r.value.left >= width / 2 && r.value.bottom - r.value.top >= height / 2
    ensures r.Some? ==> var p := Padded(b, width, height, padX, padY);
      r.value == Crop(p.x, p.y, p.x + p.w, p.y + p.h)
  {
    var p := Padded(b, width, height, padX, padY);
    if p.w < width / 2 || p.h < height / 2 then None
    else Some(Crop(p.x, p.y, p.x + p.w, p.y + p.h))
  }
}
