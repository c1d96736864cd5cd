/** The frame images of the turntable view: one JPEG per frame index, named
    `Tea_` followed by the index zero-padded to four digits, and the loading
    flag that is cleared once all of them are in. */
module FrameImages {
  import opened Wrappers
  import opened Strings

  const Prefix: string := "/Tea_"
  const Suffix: string := ".jpg"
  const PadWidth: nat := 4
  const PadFill: char := '0'
  /** `new Array(n)` throws a `RangeError` unless 0 <= n < 2^32. */
  const ArrayLengthBound: int := 0x1_0000_0000

  predicate ValidArrayLength(n: int) {
    0 <= n < ArrayLengthBound
  }

  /** `s.padStart(width, fill)` for a one-character fill: `s` itself when it
      is already `width` long, otherwise `s` preceded by enough fill. */
  function PadStart(s: string, width: nat, fill: char): (r: string)
    ensures |r| == if |s| >= width then |s| else width
    ensures r[|r| - |s|..] == s
    ensures forall j :: 0 <= j < |r| - |s| ==> r[j] == fill
  {
    if |s| >= width then s else Repeat(fill, width - |s|) + s
  }

  /** `String(i).padStart(4, '0')`: at least four characters, ending in
      the decimal digits of `i`, behind nothing but zeros. */
  function FramePad(i: nat): (r: string)
    ensures |r| >= PadWidth && |r| >= |Decimal(i)|
    ensures r[|r| - |Decimal(i)|..] == Decimal(i)
    ensures forall j :: 0 <= j < |r| - |Decimal(i)| ==> r[j] == '0'
  {
    PadStart(Decimal(i), PadWidth, PadFill)
  }

  /** The URL of frame `i` under the base `url`: the base, then `/Tea_`,
      the padded index and `.jpg`. */
  function FrameUrl(url: string, i: nat): (r: string)
    ensures |r| == |url| + |Prefix| + |FramePad(i)| + |Suffix|
    ensures r[..|url|] == url && r[|url|..|url| + |Prefix|] == Prefix
    ensures r[|url| + |Prefix|..|r| - |Suffix|] == FramePad(i)
    ensures r[|r| - |Suffix|..] == Suffix
  {
    url + Prefix + FramePad(i) + Suffix
  }

  /** `[...new Array(total)].map((_, i) => ...)`: one URL per frame, in
      frame order, or `None` for the `RangeError` of a length `new Array`
      refuses. */
  function FrameUrls(url: string, total: int): (r: Option<seq<string>>)
    ensures r.Some? <==> ValidArrayLength(total)
    ensures r.Some? ==> |r.value| == total
    ensures r.Some? ==> forall i :: 0 <= i < total ==> r.value[i] == FrameUrl(url, i)
  {
    if ValidArrayLength(total) then Some(seq(total, i requires 0 <= i => FrameUrl(url, i))) else None
  }

  lemma Pow10Four()
    ensures Pow10(4) == 10000
  {
  }

  /** Below 10000 the padded index is exactly four characters: the decimal
      digits of `i` behind leading zeros. */
  lemma FramePadShort(i: nat)
    requires i < 10000
    ensures |Decimal(i)| <= 4
    ensures FramePad(i) == Repeat('0', 4 - |Decimal(i)|) + Decimal(i)
    ensures |FramePad(i)| == 4
  {
    Pow10Four();
    DecimalLength(i, 4);
  }

  /** From 10000 on the index is written in full: padding never truncates. */
  lemma FramePadLong(i: nat)
    requires i >= 10000
    ensures FramePad(i) == Decimal(i)
    ensures |FramePad(i)| > 4
  {
    Pow10Four();
    DecimalLength(i, 4);
  }

  /** The padded index still denotes `i`. */
  lemma FramePadValue(i: nat)
    ensures Value(FramePad(i)) == i
  {
    ValueOfDecimal(i);
    if |Decimal(i)| < PadWidth {
      ValueLeadingZeros(PadWidth - |Decimal(i)|, Decimal(i));
    }
  }

  /** Different frames are fetched from different URLs. */
  lemma FrameUrlInjective(url: string, i: nat, j: nat)
    requires FrameUrl(url, i) == FrameUrl(url, j)
    ensures i == j
  {
    var u, pi, pj := FrameUrl(url, i), FramePad(i), FramePad(j);
    var head := |url| + |Prefix|;
    assert |pi| == |pj|;
    assert u[head..head + |pi|] == pi;
    assert FrameUrl(url, j)[head..head + |pj|] == pj;
    FramePadValue(i);
    FramePadValue(j);
  }

  lemma FrameUrlsDistinct(url: string, total: int)
    ensures FrameUrls(url, total).Some? ==>
      var r := FrameUrls(url, total).value;
      forall i, j :: 0 <= i < total && 0 <= j < total && i != j ==> r[i] != r[j]
  {
    if ValidArrayLength(total) {
      var r := FrameUrls(url, total).value;
      forall i, j | 0 <= i < total && 0 <= j < total && r[i] == r[j]
        ensures i == j
      {
        FrameUrlInjective(url, i, j);
      }
    }
  }

  /** `Promise.all` over image loads. `None` stands for a load that never
      settles: `loadImage` listens only for `load`, so an image that fails
      leaves its promise pending, and then the whole `Promise.all` too.
      Otherwise the values, in order. */
  function AwaitAll<I>(loads: seq<Option<I>>): (r: Option<seq<I>>)
    ensures r.Some? <==> forall k :: 0 <= k < |loads| ==> loads[k].Some?
    ensures r.Some? ==> |r.value| == |loads|
    ensures r.Some? ==> forall k :: 0 <= k < |loads| ==> r.value[k] == loads[k].value
  {
    if loads == [] then Some([])
    else
      var rest := AwaitAll(loads[1..]);
      assert forall k :: 1 <= k < |loads| ==> loads[k] == loads[1..][k - 1];
      if loads[0].Some? && rest.Some? then Some([loads[0].value] + rest.value) else None
  }

  /** The state of `useLoadImages`: the loaded images, once there are any,
      and the loading flag. `I` stands for a loaded image element. */
  class FrameLoader<I> {
    var images: Option<seq<I>>
    var isLoading: bool

    /** The loading flag is only cleared once the images are set. */
    ghost predicate Valid()
      reads this
    {
      !isLoading ==> images.Some?
    }

    constructor ()
      ensures Valid() && images == None && isLoading
    {
      images := None;
      isLoading := true;
    }

    /** `loadImages`: fetch every frame URL (`load` gives the image a URL
        resolves to, `None` when it never loads), wait for all of them, store
        the images in frame order, then clear the flag. A `total` that `new
        Array` refuses rejects the call before anything is stored, and a
        frame that never loads leaves the call waiting forever: in both
        cases the state stays as it was, loading flag included. */
    method LoadImages(url: string, total: int, load: string -> Option<I>)
      requires Valid()
      modifies this
      ensures Valid()
      ensures AllFramesLoad(url, total, load) ==> images.Some? && |images.value| == total && !isLoading
      ensures AllFramesLoad(url, total, load) ==>
        forall i :: 0 <= i < total ==> images.value[i] == load(FrameUrl(url, i)).value
      ensures !AllFramesLoad(url, total, load) ==> images == old(images) && isLoading == old(isLoading)
    {
      var urls := FrameUrls(url, total);
      if urls.None? {
        return;
      }
      var promises := seq(|urls.value|, k requires 0 <= k < |urls.value| => load(urls.value[k]));
      assert forall i :: 0 <= i < total ==> promises[i] == load(FrameUrl(url, i));
      var loaded := AwaitAll(promises);
      if loaded.None? {
        return;
      }
      images := loaded;
      isLoading := false;
    }
  }

  /** Every frame of a valid `total` loads. */
  predicate AllFramesLoad<I>(url: string, total: int, load: string -> Option<I>) {
    ValidArrayLength(total) && forall i :: 0 <= i < total ==> load(FrameUrl(url, i)).Some?
  }
}
