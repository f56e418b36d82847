/** The image attachment picker: which library assets are attached, and
    removal by position. The image library's outcome and each file read are
    inputs. */
module ImagePicker {
  import opened Base

  /** An asset the image library returned; `contents` is the outcome of
      reading its uri as base64 (`None` when the read fails). */
  datatype Asset = Asset(uri: Option<string>, fileName: Option<string>, mimeType: Option<string>,
                         fileSize: Option<int>, contents: Option<string>)

  /** What the image library resolves with. */
  datatype LibraryResult = LibraryResult(didCancel: bool, assets: Option<seq<Asset>>)

  datatype SelectedImage = SelectedImage(uri: string, data: string, mimeType: string, size: int)

  const AllowedImageTypes: seq<string> := ["image/png", "image/jpeg", "image/webp", "image/gif"]
  const DefaultImageType: string := "image/jpeg"
  const DefaultMaxImages: int := 10
  const DefaultMaxSizeMB: int := 5

  function MaxBytes(maxSizeMB: int): int {
    maxSizeMB * 1024 * 1024
  }

  /** The attachments the loop produces from `assets`: an asset of a type
      outside the allow-list, larger than `maxBytes` (a missing size counting
      as 0), without a uri, or unreadable is skipped. There is no count check. */
  function Accepted(assets: seq<Asset>, maxBytes: int): (r: seq<SelectedImage>)
    ensures |r| <= |assets|
    ensures forall i :: 0 <= i < |r| ==>
      r[i].mimeType in AllowedImageTypes && r[i].size <= maxBytes && r[i].uri != []
    decreases |assets|
  {
    if assets == [] then []
    else
      var a := assets[0];
      var mimeType := OrElse(a.mimeType, DefaultImageType);
      var fileSize := a.fileSize.GetOr(0);
      if mimeType !in AllowedImageTypes then Accepted(assets[1..], maxBytes)
      else if fileSize > maxBytes then Accepted(assets[1..], maxBytes)
      else if a.uri.None? || a.uri.value == [] then Accepted(assets[1..], maxBytes)
      else if a.contents.None? then Accepted(assets[1..], maxBytes)
      else [SelectedImage(a.uri.value, a.contents.value, mimeType, fileSize)] + Accepted(assets[1..], maxBytes)
  }

  /** An asset that passes the type, size and uri checks and could be read. */
  predicate Attachable(a: Asset, maxBytes: int) {
    OrElse(a.mimeType, DefaultImageType) in AllowedImageTypes
    && a.fileSize.GetOr(0) <= maxBytes
    && a.uri.Some? && a.uri.value != [] && a.contents.Some?
  }

  /** The attachment an attachable asset becomes: its uri, its contents, its
      type (the default when missing or empty) and its size. */
  function ImageOf(a: Asset): SelectedImage {
    SelectedImage(a.uri.GetOr([]), a.contents.GetOr([]), OrElse(a.mimeType, DefaultImageType), a.fileSize.GetOr(0))
  }

  /** An asset that fails the type, size or uri check is skipped, and the
      assets after it are still considered. */
  lemma RejectedAssetSkipped(a: Asset, rest: seq<Asset>, maxBytes: int)
    requires OrElse(a.mimeType, DefaultImageType) !in AllowedImageTypes
      || a.fileSize.GetOr(0) > maxBytes || a.uri.None? || a.uri.value == []
    ensures Accepted([a] + rest, maxBytes) == Accepted(rest, maxBytes)
  {
    assert ([a] + rest)[1..] == rest;
  }

  /** An asset that passes the checks but cannot be read is skipped, and the
      assets after it are still considered. */
  lemma UnreadableAssetSkipped(a: Asset, rest: seq<Asset>, maxBytes: int)
    requires OrElse(a.mimeType, DefaultImageType) in AllowedImageTypes && a.fileSize.GetOr(0) <= maxBytes
    requires a.uri.Some? && a.uri.value != [] && a.contents.None?
    ensures Accepted([a] + rest, maxBytes) == Accepted(rest, maxBytes)
  {
    assert ([a] + rest)[1..] == rest;
  }

  /** An attachable asset is attached, in front of what the assets after it give. */
  lemma ReadableAssetAttached(a: Asset, rest: seq<Asset>, maxBytes: int)
    requires Attachable(a, maxBytes)
    ensures Accepted([a] + rest, maxBytes) == [ImageOf(a)] + Accepted(rest, maxBytes)
  {
    assert ([a] + rest)[1..] == rest;
  }

  /** When every asset is attachable, each is attached as its image, in pick order. */
  lemma {:induction false} AllAttachableAccepted(assets: seq<Asset>, maxBytes: int)
    requires forall i :: 0 <= i < |assets| ==> Attachable(assets[i], maxBytes)
    ensures |Accepted(assets, maxBytes)| == |assets|
    ensures forall i :: 0 <= i < |assets| ==> Accepted(assets, maxBytes)[i] == ImageOf(assets[i])
    decreases |assets|
  {
    if assets != [] {
      var rest := assets[1..];
      assert forall i :: 0 <= i < |rest| ==> rest[i] == assets[i + 1];
      AllAttachableAccepted(rest, maxBytes);
      assert assets == [assets[0]] + rest;
      ReadableAssetAttached(assets[0], rest, maxBytes);
      var r := Accepted(assets, maxBytes);
      forall i | 0 <= i < |assets| ensures r[i] == ImageOf(assets[i]) {
        if i > 0 {
          assert r[i] == Accepted(rest, maxBytes)[i - 1];
        }
      }
    }
  }

  /** `handleSelectImages()`: `result` is what the image library resolved
      with (`None` when it failed). The library is asked for at most
      `maxImages - images.length` images and only below the limit; a cancel
      or a result without assets changes nothing; the parent receives the
      existing images followed by the accepted ones, and only when at least
      one was accepted. */
  method HandleSelectImages(images: seq<SelectedImage>, result: Option<LibraryResult>,
                            maxImages: int := DefaultMaxImages, maxSizeMB: int := DefaultMaxSizeMB)
    returns (selectionLimit: Option<int>, changed: Option<seq<SelectedImage>>)
    ensures selectionLimit == if |images| >= maxImages then None else Some(maxImages - |images|)
    ensures selectionLimit.None? || result.None? || result.value.didCancel || result.value.assets.None? ==> changed.None?
    ensures selectionLimit.Some? && result.Some? && !result.value.didCancel && result.value.assets.Some? ==>
      var added := Accepted(result.value.assets.value, MaxBytes(maxSizeMB));
      changed == if added == [] then None else Some(images + added)
  {
    if |images| >= maxImages {
      return None, None;
    }
    selectionLimit := Some(maxImages - |images|);
    if result.None? || result.value.didCancel || result.value.assets.None? {
      return selectionLimit, None;
    }
    var assets := result.value.assets.value;
    var maxSizeBytes := MaxBytes(maxSizeMB);
    var newImages: seq<SelectedImage> := [];
    var i := 0;
    while i < |assets|
      invariant 0 <= i <= |assets|
      invariant newImages + Accepted(assets[i..], maxSizeBytes) == Accepted(assets, maxSizeBytes)
    {
      var asset := assets[i];
      assert assets[i..][1..] == assets[i + 1..];
      i := i + 1;
      var mimeType := OrElse(asset.mimeType, DefaultImageType);
      if mimeType !in AllowedImageTypes {
        continue;
      }
      var fileSize := asset.fileSize.GetOr(0);
      if fileSize > maxSizeBytes {
        continue;
      }
      if asset.uri.None? || asset.uri.value == [] {
        continue;
      }
      var uri := asset.uri.value;
      if asset.contents.Some? {
        newImages := newImages + [SelectedImage(uri, asset.contents.value, mimeType, fileSize)];
      }
    }
    assert assets[i..] == [];
    assert newImages == Accepted(assets, maxSizeBytes);
    if |newImages| > 0 {
      changed := Some(images + newImages);
    } else {
      changed := None;
    }
  }

  /** The total stays within `maxImages` when the library honours the
      selection limit it was given. */
  lemma WithinLimitWhenHonoured(images: seq<SelectedImage>, assets: seq<Asset>, maxImages: int, maxBytes: int)
    requires |images| < maxImages && |assets| <= maxImages - |images|
    ensures |images| + |Accepted(assets, maxBytes)| <= maxImages
  {
  }

  /** The loop itself enforces no limit: with room for one more image, a
      library that returns two valid assets gets both attached. */
  lemma LimitNotEnforcedByLoop(images: seq<SelectedImage>, maxImages: int)
    requires |images| == maxImages - 1
    ensures var a := Asset(Some("file:///a.png"), None, Some("image/png"), Some(10), Some("AAAA"));
      |images + Accepted([a, a], MaxBytes(DefaultMaxSizeMB))| == maxImages + 1
  {
    var a := Asset(Some("file:///a.png"), None, Some("image/png"), Some(10), Some("AAAA"));
    assert [a, a][1..] == [a];
    assert [a][1..] == [];
  }

  /** `handleRemoveImage(index)`: the image at `index` is dropped, the others
      keep their order; an index outside the list drops nothing. */
  function HandleRemoveImage(images: seq<SelectedImage>, index: int): (r: seq<SelectedImage>)
    ensures 0 <= index < |images| ==> multiset(r) + multiset{images[index]} == multiset(images)
    ensures 0 <= index < |images| ==> r[..index] == images[..index] && r[index..] == images[index + 1..]
    ensures !(0 <= index < |images|) ==> r == images
  {
    var r := RemoveAt(images, index);
    if 0 <= index < |images| then
      assert images == images[..index] + [images[index]] + images[index + 1..];
      assert r == images[..index] + images[index + 1..];
      r
    else r
  }
}
