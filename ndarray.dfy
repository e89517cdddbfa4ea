/** The numpy array operations util.py applies itself: two-dimensional slicing of an
    image, the C-order ravel that `reshape(n, 1)` reads, and reshape's size check. */
module NdArray {
  import opened Wrappers

  newtype uint8 = x: int | 0 <= x < 256

  /** The samples of one pixel, one per channel (one for a grayscale array, three for BGR). */
  type Pixel = seq<uint8>

  /** An image array indexed img[row][column][channel]. A two-dimensional grayscale
      array is an image whose pixels hold one sample. */
  type Image = seq<seq<Pixel>>

  /** A detector hit (x, y, w, h): column, row, width and height in pixels. */
  datatype Rect = Rect(x: nat, y: nat, w: nat, h: nat)

  ghost predicate RowShaped(row: seq<Pixel>, width: nat, channels: nat)
  {
    |row| == width && forall j :: 0 <= j < width ==> |row[j]| == channels
  }

  /** The array has shape (height, width, channels). */
  ghost predicate Shaped(img: Image, height: nat, width: nat, channels: nat)
  {
    |img| == height && forall i :: 0 <= i < height ==> RowShaped(img[i], width, channels)
  }

  function Clamp(n: nat, bound: nat): nat
  {
    if n < bound then n else bound
  }

  /** Python's `s[lo:hi]` for 0 <= lo <= hi: both ends are cut back to the length. */
  function Slice<T>(s: seq<T>, lo: nat, hi: nat): (r: seq<T>)
    requires lo <= hi
    ensures |r| == Clamp(hi, |s|) - Clamp(lo, |s|)
    ensures |r| <= hi - lo
    ensures forall k :: 0 <= k < |r| ==> lo + k < |s| && r[k] == s[lo + k]
  {
    s[Clamp(lo, |s|)..Clamp(hi, |s|)]
  }

  /** `img[y:y+h, x:x+w]`: the rows of the rectangle, each cut to its columns. */
  function Crop(img: Image, r: Rect): (c: Image)
    ensures |c| == Clamp(r.y + r.h, |img|) - Clamp(r.y, |img|)
    ensures forall i :: 0 <= i < |c| ==> r.y + i < |img| && c[i] == Slice(img[r.y + i], r.x, r.x + r.w)
  {
    var rows := Slice(img, r.y, r.y + r.h);
    seq(|rows|, i requires 0 <= i < |rows| => Slice(rows[i], r.x, r.x + r.w))
  }

  /** A crop of a (height, width, channels) array has the clamped shape of the rectangle and
      holds, at (i, j), the source pixel at (y + i, x + j). */
  lemma {:induction false} CropShape(img: Image, r: Rect, height: nat, width: nat, channels: nat)
    requires Shaped(img, height, width, channels)
    ensures Shaped(Crop(img, r), Clamp(r.y + r.h, height) - Clamp(r.y, height),
                   Clamp(r.x + r.w, width) - Clamp(r.x, width), channels)
    ensures forall i, j :: 0 <= i < |Crop(img, r)| && 0 <= j < |Crop(img, r)[i]| ==>
              r.y + i < height && r.x + j < width && Crop(img, r)[i][j] == img[r.y + i][r.x + j]
  {
  }

  /** A crop reads only the pixels inside its rectangle: two arrays of the same shape that
      agree there have the same crop. */
  lemma {:induction false} CropSeesOnlyTheRegion(img: Image, other: Image, r: Rect, height: nat, width: nat, channels: nat)
    requires Shaped(img, height, width, channels) && Shaped(other, height, width, channels)
    requires forall i, j :: r.y <= i < r.y + r.h && i < height && r.x <= j < r.x + r.w && j < width ==>
               img[i][j] == other[i][j]
    ensures Crop(img, r) == Crop(other, r)
  {
    var a, b := Crop(img, r), Crop(other, r);
    forall i | 0 <= i < |a|
      ensures a[i] == b[i]
    {
      var row, otherRow := img[r.y + i], other[r.y + i];
      assert RowShaped(row, width, channels) && RowShaped(otherRow, width, channels);
      forall j | 0 <= j < |a[i]|
        ensures a[i][j] == b[i][j]
      {
        assert a[i][j] == row[r.x + j] && b[i][j] == otherRow[r.x + j];
      }
    }
  }

  /** The samples of a row of pixels in order, channel by channel. */
  function RavelRow(row: seq<Pixel>): seq<uint8>
  {
    if |row| == 0 then [] else row[0] + RavelRow(row[1..])
  }

  /** numpy's C-order ravel: row after row. */
  function Ravel(img: Image): seq<uint8>
  {
    if |img| == 0 then [] else RavelRow(img[0]) + Ravel(img[1..])
  }

  lemma {:induction false} RavelRowLength(row: seq<Pixel>, width: nat, channels: nat)
    requires RowShaped(row, width, channels)
    ensures |RavelRow(row)| == width * channels
  {
    if width > 0 {
      RavelRowLength(row[1..], width - 1, channels);
      assert width * channels == channels + (width - 1) * channels;
    }
  }

  lemma {:induction false} RavelRowAt(row: seq<Pixel>, width: nat, channels: nat, j: nat, k: nat)
    requires RowShaped(row, width, channels) && j < width && k < channels
    ensures |RavelRow(row)| == width * channels
    ensures j * channels + k < width * channels
    ensures RavelRow(row)[j * channels + k] == row[j][k]
  {
    RavelRowLength(row, width, channels);
    if j > 0 {
      RavelRowAt(row[1..], width - 1, channels, j - 1, k);
      assert j * channels + k == channels + ((j - 1) * channels + k);
    }
  }

  lemma {:induction false} RavelRowsLength(img: Image, height: nat, rowSize: nat)
    requires |img| == height && forall i :: 0 <= i < height ==> |RavelRow(img[i])| == rowSize
    ensures |Ravel(img)| == height * rowSize
  {
    if height > 0 {
      RavelRowsLength(img[1..], height - 1, rowSize);
      assert height * rowSize == rowSize + (height - 1) * rowSize;
    }
  }

  lemma {:induction false} RavelRowsAt(img: Image, height: nat, rowSize: nat, i: nat, p: nat)
    requires |img| == height && forall i' :: 0 <= i' < height ==> |RavelRow(img[i'])| == rowSize
    requires i < height && p < rowSize
    ensures |Ravel(img)| == height * rowSize
    ensures i * rowSize + p < height * rowSize
    ensures Ravel(img)[i * rowSize + p] == RavelRow(img[i])[p]
  {
    RavelRowsLength(img, height, rowSize);
    if i > 0 {
      RavelRowsAt(img[1..], height - 1, rowSize, i - 1, p);
      assert i * rowSize + p == rowSize + ((i - 1) * rowSize + p);
      assert height * rowSize == rowSize + (height - 1) * rowSize;
    }
  }

  lemma {:induction false} RowMajorIndex(i: nat, j: nat, k: nat, width: nat, channels: nat)
    ensures (i * width + j) * channels + k == i * (width * channels) + (j * channels + k)
  {
    calc {
      (i * width + j) * channels + k;
      (i * width) * channels + j * channels + k;
      i * (width * channels) + (j * channels + k);
    }
  }

  lemma {:induction false} RavelLength(img: Image, height: nat, width: nat, channels: nat)
    requires Shaped(img, height, width, channels)
    ensures |Ravel(img)| == height * width * channels
  {
    forall i | 0 <= i < height
      ensures |RavelRow(img[i])| == width * channels
    {
      RavelRowLength(img[i], width, channels);
    }
    RavelRowsLength(img, height, width * channels);
  }

  /** The C-order layout: sample (i, j, k) of a (height, width, channels) array sits at
      position (i * width + j) * channels + k of its ravel. */
  lemma {:induction false} RavelAt(img: Image, height: nat, width: nat, channels: nat, i: nat, j: nat, k: nat)
    requires Shaped(img, height, width, channels) && i < height && j < width && k < channels
    ensures |Ravel(img)| == height * width * channels
    ensures (i * width + j) * channels + k < height * width * channels
    ensures Ravel(img)[(i * width + j) * channels + k] == img[i][j][k]
  {
    forall i' | 0 <= i' < height
      ensures |RavelRow(img[i'])| == width * channels
    {
      RavelRowLength(img[i'], width, channels);
    }
    RavelRowAt(img[i], width, channels, j, k);
    RavelRowsAt(img, height, width * channels, i, j * channels + k);
    RowMajorIndex(i, j, k, width, channels);
  }

  function Digit(d: nat): char
    requires d < 10
  {
    "0123456789"[d]
  }

  /** Python's `str(n)` for a non-negative int. */
  function NatToString(n: nat): string
  {
    if n < 10 then [Digit(n)] else NatToString(n / 10) + [Digit(n % 10)]
  }

  /** `a.reshape(n, 1)` for the array whose ravel is `flat`: numpy raises unless the sizes agree,
      and otherwise keeps the samples in ravel order. */
  function ReshapeColumn(flat: seq<uint8>, n: nat): (r: Outcome<seq<uint8>>)
    ensures r.Ok? <==> |flat| == n
    ensures r.Ok? ==> r.value == flat
  {
    if |flat| == n then Ok(flat)
    else Raised("cannot reshape array of size " + NatToString(|flat|) + " into shape (" + NatToString(n) + ",1)")
  }
}
