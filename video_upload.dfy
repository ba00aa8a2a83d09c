/** The video upload form: file checks on selection, the 15..60 second
    duration rule, the resumable 1 MiB upload loop with its reusable session
    id, the tag list, the reset of the selection and the submit sequence.
    Every request (session init, status, chunk, finalize, thumbnail upload,
    POST) is an abstract result passed in by the caller. */
module VideoUpload {
  import opened JsString
  import opened FormLists
  import opened Chunking

  /** 1 MiB chunks for video. */
  const ChunkSize: nat := 1024 * 1024
  /** Largest accepted video file: 100 MiB. */
  const MaxVideoBytes: nat := 100 * 1024 * 1024
  const MinSeconds: real := 15.0
  const MaxSeconds: real := 60.0

  // ---------------------------------------------------------------------
  // videoSchema

  datatype VideoData = VideoData(title: string, description: Option<string>, tags: seq<string>)

  datatype Issue = TitleRequired | TitleTooLong | DescriptionTooLong | TooManyTags

  function SchemaIssues(d: VideoData): (r: seq<Issue>)
  {
    (if |d.title| < 1 then [TitleRequired] else [])
    + (if |d.title| > 100 then [TitleTooLong] else [])
    + (if d.description.Some? && |d.description.value| > 500 then [DescriptionTooLong] else [])
    + (if |d.tags| > 10 then [TooManyTags] else [])
  }

  /** Title 1..100 characters, description absent or at most 500, at most 10
      tags; unlike the project form, no tag is required. */
  lemma SchemaAccepts(d: VideoData)
    ensures SchemaIssues(d) == [] <==>
      1 <= |d.title| <= 100 && (d.description.None? || |d.description.value| <= 500) && |d.tags| <= 10
  {
  }

  // ---------------------------------------------------------------------
  // validateVideo and the checks of handleVideoSelect

  datatype DurationCheck = TooShort | TooLong | DurationOk

  function ValidateVideo(duration: real): (r: DurationCheck)
    ensures r == DurationOk <==> MinSeconds <= duration <= MaxSeconds
    ensures r == TooShort <==> duration < MinSeconds
  {
    if duration < MinSeconds then TooShort
    else if duration > MaxSeconds then TooLong
    else DurationOk
  }

  predicate StartsWith(s: string, prefix: string)
  {
    |prefix| <= |s| && s[..|prefix|] == prefix
  }

  datatype SelectOutcome = NoFile | NotVideo | TooLarge | Selected

  /** The checks a chosen file goes through, in order. */
  function CheckVideoFile(file: Option<File>): (r: SelectOutcome)
    ensures r == Selected <==>
      file.Some? && StartsWith(file.value.mime, "video/") && file.value.size <= MaxVideoBytes
    ensures r == NotVideo <==> file.Some? && !StartsWith(file.value.mime, "video/")
  {
    if file.None? then NoFile
    else if !StartsWith(file.value.mime, "video/") then NotVideo
    else if file.value.size > MaxVideoBytes then TooLarge
    else Selected
  }

  /** `Math.round`: halves round up. */
  function Round(x: real): (r: int)
    ensures r as real - 0.5 <= x < r as real + 0.5
  {
    (x + 0.5).Floor
  }

  // ---------------------------------------------------------------------
  // The form

  /** How `resumableVideoUpload` ends: the finalized URL, the pause error,
      a failed chunk, or a thrown init, status or finalize request. */
  datatype ResumableResult = Uploaded(url: string) | Paused | ChunkFailed | RequestFailed

  /** A stored session id that `resumableVideoUpload` reuses (`if (!uploadId)` fails). */
  predicate Reusable(id: Option<string>)
  {
    id.Some? && id.value != []
  }

  /** The upload has a session: a reused one, or one the init request returned. */
  predicate Started(id: Option<string>, initId: Option<string>)
  {
    Reusable(id) || initId.Some?
  }

  /** The text inputs at submit time. */
  datatype VideoInput = VideoInput(title: string, description: Option<string>)

  /** The body POSTed to /api/videos. */
  datatype VideoPayload = VideoPayload(
    title: string, description: string, videoUrl: string, thumbnailUrl: string, duration: int, tags: seq<string>)

  datatype SubmitOutcome =
    | NothingSelected
    | UploadFailed
    | ThumbnailFailed
    | PostFailed(body: VideoPayload)
    | Published(body: VideoPayload)

  /** The byte loop of `resumableVideoUpload`: from `existingBytes`, 1 MiB
      slices are sent while bytes remain and the upload is not `paused`,
      stopping at the first chunk whose request fails (`chunkOk(k)` is the
      ok flag of the k-th request). */
  method SendChunks(size: nat, existingBytes: nat, paused: bool, chunkOk: nat -> bool)
    returns (sent: seq<Range>, uploadedBytes: nat, failed: bool)
    ensures forall k :: 0 <= k < |sent| ==> chunkOk(k)
    ensures paused ==> sent == [] && uploadedBytes == existingBytes && !failed
    ensures !paused && !failed ==>
      sent == Chunks(existingBytes, size, ChunkSize)
      && uploadedBytes == if existingBytes <= size then size else existingBytes
    ensures failed ==>
      |sent| < |Chunks(existingBytes, size, ChunkSize)|
      && sent == Chunks(existingBytes, size, ChunkSize)[..|sent|]
      && !chunkOk(|sent|)
  {
    uploadedBytes := existingBytes;
    sent, failed := [], false;
    while uploadedBytes < size && !paused
      invariant sent + Chunks(uploadedBytes, size, ChunkSize) == Chunks(existingBytes, size, ChunkSize)
      invariant forall k :: 0 <= k < |sent| ==> chunkOk(k)
      invariant paused ==> sent == [] && uploadedBytes == existingBytes
      invariant existingBytes <= size ==> uploadedBytes <= size
      invariant existingBytes > size ==> uploadedBytes == existingBytes
      decreases size - uploadedBytes
    {
      var chunk := Range(uploadedBytes, Min(uploadedBytes + ChunkSize, size));
      var rest := Chunks(chunk.end, size, ChunkSize);
      assert Chunks(uploadedBytes, size, ChunkSize) == [chunk] + rest;
      if !chunkOk(|sent|) {
        assert (sent + ([chunk] + rest))[..|sent|] == sent;
        failed := true;
        return;
      }
      assert (sent + [chunk]) + rest == sent + ([chunk] + rest);
      sent := sent + [chunk];
      uploadedBytes := chunk.end;
    }
    assert sent + [] == sent;
  }

  class VideoUploadForm {
    var selectedVideo: Option<File>
    var videoPreview: Option<string>
    var thumbnailPreview: Option<string>
    var isPlaying: bool
    var currentTag: string
    var tags: seq<string>
    var isUploading: bool
    var showSuccessModal: bool
    var videoDuration: real
    var resumableUploadId: Option<string>
    var uploadPaused: bool
    var thumbnailOptions: seq<string>
    var selectedThumbnail: string

    /** Nothing selected, nothing uploading. */
    predicate Cleared()
      reads this
    {
      selectedVideo.None? && videoPreview.None? && thumbnailPreview.None? && thumbnailOptions == []
      && selectedThumbnail == "" && !isPlaying && videoDuration == 0.0
    }

    /** The previews, thumbnail choice, playing flag, duration and success
        dialog are the given ones. */
    predicate UnchangedView(preview: Option<string>, thumbnail: Option<string>, options: seq<string>,
                            selected: string, playing: bool, duration: real, success: bool)
      reads this
    {
      videoPreview == preview && thumbnailPreview == thumbnail && thumbnailOptions == options
      && selectedThumbnail == selected && isPlaying == playing && videoDuration == duration
      && showSuccessModal == success
    }

    constructor()
      ensures Cleared() && tags == [] && currentTag == "" && !isUploading && !showSuccessModal
      ensures resumableUploadId.None? && !uploadPaused
    {
      selectedVideo := None;
      videoPreview := None;
      thumbnailPreview := None;
      isPlaying := false;
      currentTag := "";
      tags := [];
      isUploading := false;
      showSuccessModal := false;
      videoDuration := 0.0;
      resumableUploadId := None;
      uploadPaused := false;
      thumbnailOptions := [];
      selectedThumbnail := "";
    }

    /** `handleVideoSelect`: `url` is the object URL created for an accepted file. */
    method HandleVideoSelect(file: Option<File>, url: string) returns (outcome: SelectOutcome)
      modifies this`selectedVideo, this`videoPreview
      ensures outcome == CheckVideoFile(file)
      ensures outcome == Selected ==> selectedVideo == file && videoPreview == Some(url)
      ensures outcome != Selected ==> selectedVideo == old(selectedVideo) && videoPreview == old(videoPreview)
    {
      outcome := CheckVideoFile(file);
      if outcome == Selected {
        selectedVideo := file;
        videoPreview := Some(url);
      }
    }

    /** The `onloadedmetadata` callback: stores the duration and drops a
        selection whose duration is out of range. */
    method OnMetadataLoaded(duration: real) returns (ok: bool)
      modifies this`selectedVideo, this`videoPreview, this`videoDuration
      ensures videoDuration == duration
      ensures ok <==> MinSeconds <= duration <= MaxSeconds
      ensures ok ==> selectedVideo == old(selectedVideo) && videoPreview == old(videoPreview)
      ensures !ok ==> selectedVideo.None? && videoPreview.None?
    {
      videoDuration := duration;
      ok := ValidateVideo(duration) == DurationOk;
      if !ok {
        selectedVideo := None;
        videoPreview := None;
      }
    }

    /** End of thumbnail generation: the options are stored and the middle
        one (index 2) is preselected; a missing index gives a falsy value. */
    method OnThumbnailsGenerated(thumbnails: seq<string>)
      modifies this`thumbnailOptions, this`selectedThumbnail
      ensures thumbnailOptions == thumbnails
      ensures selectedThumbnail == if |thumbnails| > 2 then thumbnails[2] else ""
    {
      thumbnailOptions := thumbnails;
      selectedThumbnail := if |thumbnails| > 2 then thumbnails[2] else "";
    }

    method SelectThumbnail(thumbnail: string)
      modifies this`selectedThumbnail
      ensures selectedThumbnail == thumbnail
    {
      selectedThumbnail := thumbnail;
    }

    /** The pause button. */
    method TogglePause()
      modifies this`uploadPaused
      ensures uploadPaused == !old(uploadPaused)
    {
      uploadPaused := !uploadPaused;
    }

    method AddTag()
      modifies this`tags, this`currentTag
      ensures tags == AddEntry(old(tags), old(currentTag)).entries
      ensures currentTag == AddEntry(old(tags), old(currentTag)).input
    {
      var edit := AddEntry(tags, currentTag);
      tags, currentTag := edit.entries, edit.input;
    }

    method RemoveTag(tag: string)
      modifies this`tags
      ensures tags == RemoveEntry(old(tags), tag)
    {
      tags := RemoveEntry(tags, tag);
    }

    /** `removeVideo`. */
    method RemoveVideo()
      modifies this`selectedVideo, this`videoPreview, this`thumbnailPreview, this`thumbnailOptions,
        this`selectedThumbnail, this`isPlaying, this`videoDuration
      ensures Cleared()
    {
      selectedVideo := None;
      videoPreview := None;
      thumbnailPreview := None;
      thumbnailOptions := [];
      selectedThumbnail := "";
      isPlaying := false;
      videoDuration := 0.0;
    }

    /** `resumableVideoUpload` for a file of `size` bytes. An existing
        non-empty session id is reused, otherwise the init request is sent and
        the id it returns stored. The loop starts at the byte count the status
        request reports and sends 1 MiB slices while bytes remain; the pause
        flag is the one in force when the upload started. The requests are
        parameters: `initId` is the id the init request returns, `status` the
        byte count the status request reports (0 when absent), `chunkOk(k)`
        the ok flag of the k-th chunk request and `finalUrl` the URL the
        finalize request returns; `None` is a request that throws. */
    method ResumableUpload(size: nat, initId: Option<string>, status: Option<nat>, chunkOk: nat -> bool,
                           finalUrl: Option<string>)
      returns (result: ResumableResult, sessionId: string, sent: seq<Range>, uploadedBytes: nat)
      modifies this`resumableUploadId
      ensures Reusable(old(resumableUploadId)) ==> sessionId == old(resumableUploadId).value
      ensures !Reusable(old(resumableUploadId)) && initId.Some? ==> sessionId == initId.value
      ensures !Started(old(resumableUploadId), initId) ==>
        result == RequestFailed && sent == [] && resumableUploadId == old(resumableUploadId)
      ensures Started(old(resumableUploadId), initId) ==>
        resumableUploadId == if result.Uploaded? then None else Some(sessionId)
      ensures status.None? ==> result == RequestFailed && sent == []
      ensures result.Paused? <==> uploadPaused && Started(old(resumableUploadId), initId) && status.Some?
      ensures uploadPaused ==> sent == []
      ensures forall k :: 0 <= k < |sent| ==> chunkOk(k)
      ensures result.Uploaded? ==>
        Started(old(resumableUploadId), initId) && status.Some? && finalUrl.Some? && result.url == finalUrl.value
        && sent == Chunks(status.value, size, ChunkSize)
        && uploadedBytes == if status.value <= size then size else status.value
      ensures result.ChunkFailed? ==>
        status.Some?
        && |sent| < |Chunks(status.value, size, ChunkSize)|
        && sent == Chunks(status.value, size, ChunkSize)[..|sent|]
        && !chunkOk(|sent|)
      ensures result.RequestFailed? && Started(old(resumableUploadId), initId) && status.Some? ==>
        !uploadPaused && finalUrl.None? && sent == Chunks(status.value, size, ChunkSize)
    {
      sent, uploadedBytes := [], 0;
      if resumableUploadId.Some? && resumableUploadId.value != [] {
        sessionId := resumableUploadId.value;
      } else if initId.Some? {
        sessionId := initId.value;
        resumableUploadId := Some(initId.value);
      } else {
        sessionId := "";
        result := RequestFailed;
        return;
      }
      if status.None? {
        result := RequestFailed;
        return;
      }
      var failed;
      sent, uploadedBytes, failed := SendChunks(size, status.value, uploadPaused, chunkOk);
      if failed {
        result := ChunkFailed;
        return;
      }
      if uploadPaused {
        result := Paused;
        return;
      }
      if finalUrl.None? {
        result := RequestFailed;
        return;
      }
      resumableUploadId := None;
      result := Uploaded(finalUrl.value);
    }

    /** `onSubmit`. Without a selected video and thumbnail nothing is sent.
        Otherwise the video goes up through `ResumableUpload`, then the
        thumbnail (`thumbnailUrl`, None when that upload fails), then the
        metadata is POSTed (`postOk`). Success resets the tags and the
        selection; the uploading and paused flags end false either way. */
    method Submit(input: VideoInput, initId: Option<string>, status: Option<nat>, chunkOk: nat -> bool,
                  finalUrl: Option<string>, thumbnailUrl: Option<string>, postOk: bool)
      returns (outcome: SubmitOutcome)
      modifies this
      ensures outcome == NothingSelected <==> old(selectedVideo).None? || old(selectedThumbnail) == ""
      ensures outcome == NothingSelected ==>
        isUploading == old(isUploading) && uploadPaused == old(uploadPaused)
        && resumableUploadId == old(resumableUploadId)
        && selectedVideo == old(selectedVideo) && tags == old(tags)
      ensures outcome != NothingSelected ==> !isUploading && !uploadPaused
      ensures outcome != NothingSelected && old(uploadPaused) ==> outcome == UploadFailed
      ensures (outcome.PostFailed? || outcome.Published?) ==> (
        outcome.body.title == input.title
        && outcome.body.description == (if input.description.Some? then input.description.value else "")
        && finalUrl.Some? && outcome.body.videoUrl == finalUrl.value
        && thumbnailUrl.Some? && outcome.body.thumbnailUrl == thumbnailUrl.value
        && outcome.body.duration == Round(old(videoDuration))
        && outcome.body.tags == old(tags))
      ensures outcome.Published? <==> (outcome != NothingSelected && !old(uploadPaused)
        && Started(old(resumableUploadId), initId) && status.Some?
        && (forall k :: 0 <= k < |Chunks(status.value, old(selectedVideo).value.size, ChunkSize)| ==> chunkOk(k))
        && finalUrl.Some? && thumbnailUrl.Some? && postOk)
      ensures outcome.Published? ==> Cleared() && tags == [] && showSuccessModal
      ensures !outcome.Published? ==> selectedVideo == old(selectedVideo) && tags == old(tags)
      ensures !outcome.Published? ==> UnchangedView(old(videoPreview), old(thumbnailPreview),
        old(thumbnailOptions), old(selectedThumbnail), old(isPlaying), old(videoDuration), old(showSuccessModal))
      ensures currentTag == old(currentTag)
      ensures outcome == UploadFailed ==>
        resumableUploadId == (if !Reusable(old(resumableUploadId)) && initId.Some? then initId else old(resumableUploadId))
      ensures outcome.ThumbnailFailed? || outcome.PostFailed? || outcome.Published? ==> resumableUploadId.None?
    {
      if selectedVideo.None? || selectedThumbnail == "" {
        outcome := NothingSelected;
        return;
      }
      isUploading := true;
      var result, _, _, _ := ResumableUpload(selectedVideo.value.size, initId, status, chunkOk, finalUrl);
      outcome := AfterUpload(result, input, thumbnailUrl, postOk);
      isUploading := false;
      uploadPaused := false;
    }
    /** The part of `onSubmit` after the video upload: the thumbnail upload
        result, then the metadata POST. */
    method AfterUpload(result: ResumableResult, input: VideoInput, thumbnailUrl: Option<string>, postOk: bool)
      returns (outcome: SubmitOutcome)
      modifies this`selectedVideo, this`videoPreview, this`thumbnailPreview, this`thumbnailOptions,
        this`selectedThumbnail, this`isPlaying, this`videoDuration, this`tags, this`showSuccessModal
      ensures !result.Uploaded? ==> outcome == UploadFailed
      ensures result.Uploaded? && thumbnailUrl.None? ==> outcome == ThumbnailFailed
      ensures result.Uploaded? && thumbnailUrl.Some? ==>
        (outcome.Published? <==> postOk) && (outcome.PostFailed? <==> !postOk)
        && outcome.body.title == input.title
        && outcome.body.description == (if input.description.Some? then input.description.value else "")
        && outcome.body.videoUrl == result.url && outcome.body.thumbnailUrl == thumbnailUrl.value
        && outcome.body.duration == Round(old(videoDuration)) && outcome.body.tags == old(tags)
      ensures outcome.Published? ==> Cleared() && tags == [] && showSuccessModal
      ensures !outcome.Published? ==> selectedVideo == old(selectedVideo) && tags == old(tags)
      ensures !outcome.Published? ==> UnchangedView(old(videoPreview), old(thumbnailPreview),
        old(thumbnailOptions), old(selectedThumbnail), old(isPlaying), old(videoDuration), old(showSuccessModal))
    {
      if !result.Uploaded? {
        outcome := UploadFailed;
      } else if thumbnailUrl.None? {
        outcome := ThumbnailFailed;
      } else {
        var description := if input.description.Some? then input.description.value else "";
        var body := VideoPayload(input.title, description, result.url, thumbnailUrl.value, Round(videoDuration), tags);
        if !postOk {
          outcome := PostFailed(body);
        } else {
          showSuccessModal := true;
          tags := [];
          RemoveVideo();
          outcome := Published(body);
        }
      }
    }
  }

  /** A resumed upload that completes has sent exactly the missing bytes:
      the chunks tile `[existingBytes, size)`, 1 MiB each except the last. */
  lemma ResumedChunksCoverRest(existingBytes: nat, size: nat)
    requires existingBytes <= size
    ensures Tiles(Chunks(existingBytes, size, ChunkSize), existingBytes, size, ChunkSize)
    ensures TotalLength(Chunks(existingBytes, size, ChunkSize)) == size - existingBytes
    ensures |Chunks(existingBytes, size, ChunkSize)| == CeilDiv(size - existingBytes, ChunkSize)
  {
    ChunksTile(existingBytes, size, ChunkSize);
    TilesTotal(Chunks(existingBytes, size, ChunkSize), existingBytes, size, ChunkSize);
    ChunksCount(existingBytes, size, ChunkSize);
  }
}
