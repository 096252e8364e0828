/** The pure steps of `POST /generate-presentation/` in
    generate_presentation/main.py, up to the call of the generator, and the
    final check on the output file. */
module Endpoint {
  import opened Outcomes
  import opened Models

  const PptxSuffix: string := ".pptx"

  predicate EndsWith(s: string, suffix: string)
  {
    |suffix| <= |s| && s[|s| - |suffix|..] == suffix
  }

  /** The requested output path when it ends with ".pptx", otherwise
      "output.pptx". */
  function NormaliseOutputPath(p: string): (r: string)
    ensures EndsWith(r, PptxSuffix)
    ensures r == p <==> EndsWith(p, PptxSuffix)
    ensures r != p ==> r == DefaultOutputPath
  {
    if EndsWith(p, PptxSuffix) then p else DefaultOutputPath
  }

  /** Normalising twice is normalising once. */
  lemma NormaliseIdempotent(p: string)
    ensures NormaliseOutputPath(NormaliseOutputPath(p)) == NormaliseOutputPath(p)
  {
  }

  /** An uploaded file: its client-side name and whether copying its bytes
      into the upload directory succeeds. */
  datatype Upload = Upload(filename: string, copyOk: bool)

  /** `str(UPLOAD_DIR / filename)`: an absolute name replaces the directory. */
  function UploadPath(filename: string): (r: string)
    ensures |filename| > 0 && filename[0] == '/' ==> r == filename
    ensures !(|filename| > 0 && filename[0] == '/') ==>
              |r| == 8 + |filename| && r[..8] == "uploads/" && r[8..] == filename
  {
    if |filename| > 0 && filename[0] == '/' then filename else "uploads/" + filename
  }

  /** Why the endpoint answers with an error status. */
  datatype Reason = BadJson | InvalidRequest | UploadNotSaved(filename: string) | NotGenerated

  datatype HttpError = HttpError(status: int, reason: Reason)

  /** File `i` is used (its slide exists and has a truthy photo) and its copy
      fails. */
  predicate UploadFails(slides: seq<SlideData>, files: seq<Upload>, i: int)
  {
    0 <= i < |files| && i < |slides| && Truthy(slides[i].photo) && !files[i].copyOk
  }

  /** The photo slide `i` ends up with when no copy fails. */
  function RemappedPhoto(slides: seq<SlideData>, files: seq<Upload>, i: nat): Option<string>
    requires i < |slides|
  {
    if i < |files| && Truthy(slides[i].photo) then Some(UploadPath(files[i].filename)) else slides[i].photo
  }

  /** The upload loop: file `i` is matched to slide `i` by position; it is
      stored and replaces the slide's photo iff the slide exists and its
      photo is truthy; other files are ignored. The first copy that fails
      ends the request with status 500. Titles, descriptions and the
      number of slides never change. */
  function RemapPhotos(slides: seq<SlideData>, files: seq<Upload>): (r: Result<seq<SlideData>, HttpError>)
    decreases |files|
    ensures r.Err? <==> exists i :: UploadFails(slides, files, i)
    ensures r.Err? ==> exists i :: && UploadFails(slides, files, i)
                                   && (forall j :: 0 <= j < i ==> !UploadFails(slides, files, j))
                                   && r.error == HttpError(500, UploadNotSaved(files[i].filename))
    ensures r.Ok? ==> |r.value| == |slides|
    ensures r.Ok? ==> forall i :: 0 <= i < |slides| ==>
                        && r.value[i].zagolovok == slides[i].zagolovok
                        && r.value[i].opisanie == slides[i].opisanie
                        && r.value[i].photo == RemappedPhoto(slides, files, i)
  {
    if |files| == 0 then Ok(slides)
    else
      var i := |files| - 1;
      var init := files[..i];
      assert forall j :: 0 <= j < i ==> (UploadFails(slides, init, j) <==> UploadFails(slides, files, j));
      match RemapPhotos(slides, init)
      case Err(e) => Err(e)
      case Ok(s) =>
        assert i < |s| ==> s[i].photo == slides[i].photo;
        if i < |s| && Truthy(s[i].photo) then
          if files[i].copyOk then
            Ok(s[i := s[i].(photo := Some(UploadPath(files[i].filename)))])
          else
            assert UploadFails(slides, files, i);
            Err(HttpError(500, UploadNotSaved(files[i].filename)))
        else Ok(s)
  }

  /** Files past the last slide play no part: dropping them changes
      nothing. */
  lemma {:induction false} ExtraFilesIgnored(slides: seq<SlideData>, files: seq<Upload>)
    requires |files| > |slides|
    ensures RemapPhotos(slides, files) == RemapPhotos(slides, files[..|slides|])
  {
    var i := |files| - 1;
    if i > |slides| {
      assert files[..i][..|slides|] == files[..|slides|];
      ExtraFilesIgnored(slides, files[..i]);
    } else {
      assert files[..i] == files[..|slides|];
    }
  }

  /** With no failing copy, the remapped slides written out directly:
      each slide keeps its text and takes its remapped photo. */
  lemma RemapPhotosIsPointwise(slides: seq<SlideData>, files: seq<Upload>)
    requires !exists i :: UploadFails(slides, files, i)
    ensures RemapPhotos(slides, files)
            == Ok(seq(|slides|, i requires 0 <= i < |slides| => slides[i].(photo := RemappedPhoto(slides, files, i))))
  {
    var want := seq(|slides|, i requires 0 <= i < |slides| => slides[i].(photo := RemappedPhoto(slides, files, i)));
    var got := RemapPhotos(slides, files).value;
    assert |got| == |want|;
    forall i | 0 <= i < |got| ensures got[i] == want[i] {
    }
    assert got == want;
  }

  /** The request form field: either not JSON at all, or a decoded value. */
  datatype Form = MalformedJson | Decoded(value: Json)

  /** What is handed to the generator. */
  datatype Prepared = Prepared(slides: seq<SlideData>, slideCount: int, outputPath: string)

  /** The endpoint up to the generator call: malformed JSON and any
      validation failure give 422, a failed upload copy gives 500; otherwise
      the remapped slides, the slide count and the normalised output path. */
  function PrepareGeneration(form: Form, files: seq<Upload>): (r: Result<Prepared, HttpError>)
    ensures form.MalformedJson? ==> r == Err(HttpError(422, BadJson))
    ensures form.Decoded? && ValidatePresentationRequest(form.value).None? ==> r == Err(HttpError(422, InvalidRequest))
    ensures r.Err? ==> r.error.status == 422 || r.error.reason.UploadNotSaved?
    ensures r.Err? && r.error.reason.UploadNotSaved? ==> r.error.status == 500
    ensures r.Ok? ==> && form.Decoded?
                      && var req := ValidatePresentationRequest(form.value);
                      && req.Some?
                      && !(exists i :: UploadFails(req.value.slides, files, i))
                      && |r.value.slides| == |req.value.slides|
                      && r.value.slideCount == req.value.slideCount
                      && r.value.outputPath == NormaliseOutputPath(req.value.outputPath)
                      && EndsWith(r.value.outputPath, PptxSuffix)
    ensures form.Decoded? && ValidatePresentationRequest(form.value).Some? ==>
              var req := ValidatePresentationRequest(form.value).value;
              && ((exists i :: UploadFails(req.slides, files, i)) ==>
                    r.Err? && r.error.status == 500 && r.error.reason.UploadNotSaved?)
              && (!(exists i :: UploadFails(req.slides, files, i)) ==> r.Ok?)
    ensures r.Ok? ==>
              var req := ValidatePresentationRequest(form.value).value;
              forall i :: 0 <= i < |r.value.slides| ==>
                r.value.slides[i] == req.slides[i].(photo := RemappedPhoto(req.slides, files, i))
  {
    match form
    case MalformedJson => Err(HttpError(422, BadJson))
    case Decoded(j) =>
      match ValidatePresentationRequest(j)
      case None => Err(HttpError(422, InvalidRequest))
      case Some(req) =>
        match RemapPhotos(req.slides, files)
        case Err(e) => Err(e)
        case Ok(slides) => Ok(Prepared(slides, req.slideCount, NormaliseOutputPath(req.outputPath)))
  }

  /** The endpoint's answer after generation. */
  datatype Reply = SendFile(path: string) | Fail(error: HttpError)

  /** The file is sent iff it exists at the output path; otherwise 500. */
  function Respond(outputPath: string, outputExists: bool): (r: Reply)
    ensures r.SendFile? <==> outputExists
    ensures r.SendFile? ==> r.path == outputPath
    ensures r.Fail? ==> r.error == HttpError(500, NotGenerated)
  {
    if outputExists then SendFile(outputPath) else Fail(HttpError(500, NotGenerated))
  }
}
