/** The audio attachment picker: which picked files are attached, and
    removal by position. The document picker's outcome and each file read
    are inputs. */
module AudioPicker {
  import opened Base

  /** A file the document picker returned; `contents` is the outcome of
      reading its uri as base64 (`None` when the read fails). */
  datatype PickedFile = PickedFile(
    name: string, uri: string, fileCopyUri: Option<string>, mimeType: Option<string>,
    size: Option<int>, contents: Option<string>)

  datatype SelectedAudio = SelectedAudio(uri: string, name: string, data: string, mimeType: string, size: int)

  const AllowedAudioTypes: seq<string> := [
    "audio/mpeg", "audio/mp3", "audio/wav", "audio/wave", "audio/ogg",
    "audio/webm", "audio/mp4", "audio/m4a", "audio/flac", "audio/aac"]

  const DefaultAudioType: string := "audio/mpeg"
  const DefaultMaxAudios: int := 5
  const DefaultMaxSizeMB: int := 25

  function MaxBytes(maxSizeMB: int): int {
    maxSizeMB * 1024 * 1024
  }

  /** The attachments the loop produces from `files` when `count` audios are
      already attached: a file of a type outside the allow-list `allowed`
      (the component passes `AllowedAudioTypes`), or larger
      than `maxBytes` (a missing size counting as 0), is skipped; once the
      count reaches `maxAudios` on a file that passed both checks, the loop
      stops; an unreadable file is skipped. */
  function Accepted(allowed: seq<string>, count: int, files: seq<PickedFile>, maxAudios: int, maxBytes: int): (r: seq<SelectedAudio>)
    ensures |r| <= |files|
    ensures r == [] || count + |r| <= maxAudios
    decreases |files|
  {
    if files == [] then []
    else
      var f := files[0];
      var mimeType := OrElse(f.mimeType, DefaultAudioType);
      var fileSize := f.size.GetOr(0);
      if mimeType !in allowed then Accepted(allowed, count, files[1..], maxAudios, maxBytes)
      else if fileSize > maxBytes then Accepted(allowed, count, files[1..], maxAudios, maxBytes)
      else if count >= maxAudios then []
      else if f.contents.None? then Accepted(allowed, count, files[1..], maxAudios, maxBytes)
      else
        [SelectedAudio(OrElse(f.fileCopyUri, f.uri), f.name, f.contents.value, mimeType, fileSize)]
        + Accepted(allowed, count + 1, files[1..], maxAudios, maxBytes)
  }

  /** Every audio has a type from `allowed` and a size within `maxBytes`. */
  predicate AllPass(allowed: seq<string>, audios: seq<SelectedAudio>, maxBytes: int) {
    forall i :: 0 <= i < |audios| ==> audios[i].mimeType in allowed && audios[i].size <= maxBytes
  }

  /** Every attached file has a type from the allow-list and a size within
      the limit. */
  lemma {:induction false} AcceptedFilesPass(allowed: seq<string>, count: int, files: seq<PickedFile>, maxAudios: int, maxBytes: int)
    ensures AllPass(allowed, Accepted(allowed, count, files, maxAudios, maxBytes), maxBytes)
    decreases |files|
  {
    if files != [] {
      AcceptedFilesPass(allowed, count, files[1..], maxAudios, maxBytes);
      AcceptedFilesPass(allowed, count + 1, files[1..], maxAudios, maxBytes);
      var f := files[0];
      var r := Accepted(allowed, count, files, maxAudios, maxBytes);
      var t := Accepted(allowed, count + 1, files[1..], maxAudios, maxBytes);
      if OrElse(f.mimeType, DefaultAudioType) in allowed && f.size.GetOr(0) <= maxBytes
         && count < maxAudios && f.contents.Some? {
        var a := SelectedAudio(OrElse(f.fileCopyUri, f.uri), f.name, f.contents.value,
                               OrElse(f.mimeType, DefaultAudioType), f.size.GetOr(0));
        assert r == [a] + t;
        forall i | 0 <= i < |r|
          ensures r[i].mimeType in allowed && r[i].size <= maxBytes
        {
          if i > 0 {
            assert r[i] == t[i - 1];
          }
        }
      }
    }
  }

  /** A file that passes the checks, reads, and fits is attached. */
  predicate Attachable(allowed: seq<string>, f: PickedFile, maxBytes: int) {
    OrElse(f.mimeType, DefaultAudioType) in allowed
    && f.size.GetOr(0) <= maxBytes && f.contents.Some?
  }

  /** When every file is attachable and all of them fit, none is dropped. */
  lemma {:induction false} AllAttachableAccepted(allowed: seq<string>, count: int, files: seq<PickedFile>, maxAudios: int, maxBytes: int)
    requires forall i :: 0 <= i < |files| ==> Attachable(allowed, files[i], maxBytes)
    requires count + |files| <= maxAudios
    ensures |Accepted(allowed, count, files, maxAudios, maxBytes)| == |files|
    decreases |files|
  {
    if files != [] {
      assert Attachable(allowed, files[0], maxBytes);
      assert forall i :: 0 <= i < |files| - 1 ==> files[1..][i] == files[i + 1];
      AllAttachableAccepted(allowed, count + 1, files[1..], maxAudios, maxBytes);
    }
  }

  /** A file that fails the type or size check never stops the loop: it is
      skipped and the files after it are still considered. */
  lemma RejectedFileSkipped(allowed: seq<string>, count: int, f: PickedFile, rest: seq<PickedFile>, maxAudios: int, maxBytes: int)
    requires OrElse(f.mimeType, DefaultAudioType) !in allowed || f.size.GetOr(0) > maxBytes
    ensures Accepted(allowed, count, [f] + rest, maxAudios, maxBytes) == Accepted(allowed, count, rest, maxAudios, maxBytes)
  {
    assert ([f] + rest)[1..] == rest;
  }

  /** An unreadable file that passed the checks is skipped below the limit,
      and the files after it are still considered. */
  lemma UnreadableFileSkipped(allowed: seq<string>, count: int, f: PickedFile, rest: seq<PickedFile>, maxAudios: int, maxBytes: int)
    requires OrElse(f.mimeType, DefaultAudioType) in allowed && f.size.GetOr(0) <= maxBytes
    requires count < maxAudios && f.contents.None?
    ensures Accepted(allowed, count, [f] + rest, maxAudios, maxBytes) == Accepted(allowed, count, rest, maxAudios, maxBytes)
  {
    assert ([f] + rest)[1..] == rest;
  }

  /** A readable file that passed the checks is attached below the limit,
      and the count of attached files goes up by one for the rest. */
  lemma ReadableFileAttached(allowed: seq<string>, count: int, f: PickedFile, rest: seq<PickedFile>, maxAudios: int, maxBytes: int)
    requires OrElse(f.mimeType, DefaultAudioType) in allowed && f.size.GetOr(0) <= maxBytes
    requires count < maxAudios && f.contents.Some?
    ensures Accepted(allowed, count, [f] + rest, maxAudios, maxBytes)
      == [SelectedAudio(OrElse(f.fileCopyUri, f.uri), f.name, f.contents.value,
                        OrElse(f.mimeType, DefaultAudioType), f.size.GetOr(0))]
         + Accepted(allowed, count + 1, rest, maxAudios, maxBytes)
  {
    assert ([f] + rest)[1..] == rest;
  }

  /** Once the limit is reached, the first file that passes the checks ends
      the loop: nothing from it or after it is attached. */
  lemma LimitStopsTheLoop(allowed: seq<string>, count: int, f: PickedFile, rest: seq<PickedFile>, maxAudios: int, maxBytes: int)
    requires OrElse(f.mimeType, DefaultAudioType) in allowed && f.size.GetOr(0) <= maxBytes
    requires count >= maxAudios
    ensures Accepted(allowed, count, [f] + rest, maxAudios, maxBytes) == []
  {
  }

  /** The loop of `handleSelectAudios()` over the picked files, with `count`
      audios already attached. */
  method AttachAudios(allowed: seq<string>, count: int, results: seq<PickedFile>, maxAudios: int, maxSizeBytes: int)
    returns (newAudios: seq<SelectedAudio>)
    ensures newAudios == Accepted(allowed, count, results, maxAudios, maxSizeBytes)
  {
    newAudios := [];
    var i := 0;
    while i < |results|
      invariant 0 <= i <= |results|
      invariant newAudios + Accepted(allowed, count + |newAudios|, results[i..], maxAudios, maxSizeBytes)
        == Accepted(allowed, count, results, maxAudios, maxSizeBytes)
    {
      var file := results[i];
      assert results[i..][1..] == results[i + 1..];
      i := i + 1;
      var mimeType := OrElse(file.mimeType, DefaultAudioType);
      if mimeType !in allowed {
        continue;
      }
      var fileSize := file.size.GetOr(0);
      if fileSize > maxSizeBytes {
        continue;
      }
      if count + |newAudios| >= maxAudios {
        break;
      }
      var uri := OrElse(file.fileCopyUri, file.uri);
      if file.contents.Some? {
        newAudios := newAudios + [SelectedAudio(uri, file.name, file.contents.value, mimeType, fileSize)];
      }
    }
  }

  /** `handleSelectAudios()`: `picked` is what the document picker returned
      (`None` when it was cancelled or failed). The picker is opened only
      below the limit; the parent receives the existing audios followed by
      the accepted ones, and only when at least one was accepted. */
  method HandleSelectAudios(audios: seq<SelectedAudio>, picked: Option<seq<PickedFile>>,
                            maxAudios: int := DefaultMaxAudios, maxSizeMB: int := DefaultMaxSizeMB)
    returns (pickerOpened: bool, changed: Option<seq<SelectedAudio>>)
    ensures pickerOpened <==> |audios| < maxAudios
    ensures !pickerOpened || picked.None? ==> changed.None?
    ensures pickerOpened && picked.Some? ==>
      var added := Accepted(AllowedAudioTypes, |audios|, picked.value, maxAudios, MaxBytes(maxSizeMB));
      changed == if added == [] then None else Some(audios + added)
    ensures changed.Some? ==> |changed.value| <= maxAudios && |changed.value| > |audios|
  {
    if |audios| >= maxAudios {
      return false, None;
    }
    if picked.None? {
      return true, None;
    }
    var newAudios := AttachAudios(AllowedAudioTypes, |audios|, picked.value, maxAudios, MaxBytes(maxSizeMB));
    if |newAudios| > 0 {
      changed := Some(audios + newAudios);
    } else {
      changed := None;
    }
    pickerOpened := true;
  }

  /** `handleRemoveAudio(index)`: the audio at `index` is dropped, the others
      keep their order; an index outside the list drops nothing. */
  function HandleRemoveAudio(audios: seq<SelectedAudio>, index: int): (r: seq<SelectedAudio>)
    ensures 0 <= index < |audios| ==> multiset(r) + multiset{audios[index]} == multiset(audios)
    ensures 0 <= index < |audios| ==> r[..index] == audios[..index] && r[index..] == audios[index + 1..]
    ensures !(0 <= index < |audios|) ==> r == audios
  {
    var r := RemoveAt(audios, index);
    if 0 <= index < |audios| then
      assert audios == audios[..index] + [audios[index]] + audios[index + 1..];
      assert r == audios[..index] + audios[index + 1..];
      r
    else r
  }
}
