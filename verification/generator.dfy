/** The slide-assembly policy of generate_presentation/presentation_generator.py
    over the abstract deck. File existence, image decoding and saving are
    oracles carried by `Env`. */
module Generator {
  import opened Outcomes
  import opened PySlice
  import opened Models
  import opened Presentation

  /** The path `load_template` reads when called without arguments. */
  const TemplatePath: string := "templates/template.pptx"

  /** What the outside world answers: whether a path exists, whether the
      file at a path can be inserted as a picture, whether the deck can be
      written to a path. */
  datatype Env = Env(fileExists: string -> bool, imageLoads: string -> bool, canSave: string -> bool)

  /** The exceptions that escape `generate_presentation`. */
  datatype GenError =
    | TemplateNotFound     // load_template: no file at the template path
    | TemplateUnreadable   // the file exists but python-pptx cannot open it
    | NoTitleSlide         // add_template_title_slide: template without slides
    | NoContentLayout      // add_template_content_slide: fewer than 2 layouts
    | NoClosingLayout      // add_template_final_slide: slide_layouts[2] missing

  /** How a call of `generate_presentation` ends: an early return with
      nothing built, a built deck (saved or with the save error swallowed),
      or an exception. */
  datatype Generation =
    | NothingToGenerate
    | Built(deck: Deck, saved: bool)
    | Raised(error: GenError)

  /** The image of a record is tried: `photo` is truthy and the path exists. */
  predicate ImageTried(rec: SlideData, env: Env)
  {
    Truthy(rec.photo) && env.fileExists(rec.photo.value)
  }

  /** The image of a record is tried and the insertion does not raise. */
  predicate ImageInserted(rec: SlideData, env: Env)
  {
    ImageTried(rec, env) && env.imageLoads(rec.photo.value)
  }

  /** Two placeholder lists with the same type codes in the same order. */
  predicate SameKinds(ps: seq<Placeholder>, qs: seq<Placeholder>)
  {
    |ps| == |qs| && forall j :: 0 <= j < |ps| ==> ps[j].kind == qs[j].kind
  }

  /** First-match lookup reads only the type codes. */
  lemma FirstOfKindByKinds(ps: seq<Placeholder>, qs: seq<Placeholder>, kind: int)
    requires SameKinds(ps, qs)
    ensures FirstOfKind(ps, kind) == FirstOfKind(qs, kind)
  {
  }

  // ---------------------------------------------------------------------
  // Template mode

  /** `add_template_title_slide`: a template without slides raises;
      otherwise slide 0 gets `topic` as its title text when it has a title
      shape, and every other slide is left as it is. */
  function RetitleTemplate(d: Deck, topic: string): (r: Result<Deck, GenError>)
    ensures r.Err? <==> |d.slides| == 0
    ensures r.Err? ==> r.error == NoTitleSlide
    ensures r.Ok? ==> && r.value.layouts == d.layouts
                      && |r.value.slides| == |d.slides|
                      && r.value.slides[1..] == d.slides[1..]
                      && (d.slides[0].title.Some? ==> r.value.slides[0].title == Some(topic))
                      && (d.slides[0].title.None? ==> r.value.slides[0] == d.slides[0])
                      && r.value.slides[0].(title := d.slides[0].title) == d.slides[0]
  {
    if |d.slides| < 1 then Err(NoTitleSlide)
    else Ok(d.(slides := d.slides[0 := SetTitle(d.slides[0], topic)]))
  }

  /** The text steps of `add_template_content_slide`. The title is set
      only when the slide has a title shape and `zagolovok` is non-empty.
      The first type-7 placeholder, and no other, receives `opisanie` as
      its last paragraph after being cleared, when `opisanie` is non-empty. */
  function FillTemplateText(s: Slide, rec: SlideData): (r: Slide)
    ensures r.layout == s.layout && r.pictures == s.pictures
    ensures r.title == (if s.title.Some? && rec.zagolovok != "" then Some(rec.zagolovok) else s.title)
    ensures SameKinds(r.placeholders, s.placeholders)
    ensures forall j :: 0 <= j < |s.placeholders| ==> r.placeholders[j].image == s.placeholders[j].image
    ensures var b := FirstOfKind(s.placeholders, ContentKind);
            forall j :: 0 <= j < |s.placeholders| && !(b == Some(j) && rec.opisanie != "") ==>
              r.placeholders[j].paragraphs == s.placeholders[j].paragraphs
    ensures var b := FirstOfKind(s.placeholders, ContentKind);
            b.Some? && rec.opisanie != "" ==>
              var ps := r.placeholders[b.value].paragraphs;
              |ps| > 0 && ps[|ps| - 1] == rec.opisanie && forall k :: 0 <= k < |ps| - 1 ==> ps[k] == ""
  {
    var s1 := if rec.zagolovok != "" then SetTitle(s, rec.zagolovok) else s;
    var b := FirstOfKind(s1.placeholders, ContentKind);
    if b.Some? && rec.opisanie != "" then ReplaceText(s1, b.value, rec.opisanie) else s1
  }

  /** The image step of `add_template_content_slide`. A tried image that
      inserts goes into the first type-18 placeholder, or becomes a free
      picture when there is none; an insertion that raises, like an image
      that is not tried, leaves the slide unchanged. */
  function InsertTemplateImage(s: Slide, rec: SlideData, env: Env): (r: Slide)
    ensures r.layout == s.layout && r.title == s.title
    ensures SameKinds(r.placeholders, s.placeholders)
    ensures forall j :: 0 <= j < |s.placeholders| ==> r.placeholders[j].paragraphs == s.placeholders[j].paragraphs
    ensures var p := FirstOfKind(s.placeholders, PictureKind);
            forall j :: 0 <= j < |s.placeholders| ==>
              r.placeholders[j].image ==
                (if ImageInserted(rec, env) && p == Some(j) then rec.photo else s.placeholders[j].image)
    ensures var p := FirstOfKind(s.placeholders, PictureKind);
            r.pictures == s.pictures + (if ImageInserted(rec, env) && p.None? then [rec.photo.value] else [])
  {
    var p := FirstOfKind(s.placeholders, PictureKind);
    if ImageTried(rec, env) && env.imageLoads(rec.photo.value) then
      if p.Some? then FillPicture(s, p.value, rec.photo.value) else AddPicture(s, rec.photo.value)
    else
      s
  }

  /** `add_template_content_slide` after the slide is made: the text steps,
      then the image step. The picture placeholder is looked up after the
      text steps, which change no type code, so it is the first type-18
      placeholder of the fresh slide. */
  function FillTemplateSlide(s: Slide, rec: SlideData, env: Env): (r: Slide)
    ensures r.layout == s.layout
    ensures r.title == (if s.title.Some? && rec.zagolovok != "" then Some(rec.zagolovok) else s.title)
    ensures SameKinds(r.placeholders, s.placeholders)
    ensures var b := FirstOfKind(s.placeholders, ContentKind);
            forall j :: 0 <= j < |s.placeholders| && !(b == Some(j) && rec.opisanie != "") ==>
              r.placeholders[j].paragraphs == s.placeholders[j].paragraphs
    ensures var b := FirstOfKind(s.placeholders, ContentKind);
            b.Some? && rec.opisanie != "" ==>
              var ps := r.placeholders[b.value].paragraphs;
              |ps| > 0 && ps[|ps| - 1] == rec.opisanie && forall k :: 0 <= k < |ps| - 1 ==> ps[k] == ""
    ensures var p := FirstOfKind(s.placeholders, PictureKind);
            forall j :: 0 <= j < |s.placeholders| ==>
              r.placeholders[j].image ==
                (if ImageInserted(rec, env) && p == Some(j) then rec.photo else s.placeholders[j].image)
    ensures var p := FirstOfKind(s.placeholders, PictureKind);
            r.pictures == s.pictures + (if ImageInserted(rec, env) && p.None? then [rec.photo.value] else [])
  {
    var s1 := FillTemplateText(s, rec);
    FirstOfKindByKinds(s1.placeholders, s.placeholders, PictureKind);
    InsertTemplateImage(s1, rec, env)
  }

  /** A content slide of template mode: a fresh instance of layout 1,
      filled from the record. */
  function TemplateContentSlide(layouts: seq<Layout>, rec: SlideData, env: Env): Slide
    requires |layouts| >= 2
  {
    FillTemplateSlide(NewSlide(layouts, 1), rec, env)
  }

  /** The loop over the records in template mode. The layout check sits
      inside the loop, so it raises only when at least one record is
      processed; otherwise one content slide per record is appended in
      record order and the existing slides are kept. */
  function AddTemplateSlides(d: Deck, recs: seq<SlideData>, env: Env): (r: Result<Deck, GenError>)
    decreases |recs|
    ensures r.Err? <==> |recs| > 0 && |d.layouts| < 2
    ensures r.Err? ==> r.error == NoContentLayout
    ensures r.Ok? ==> && r.value.layouts == d.layouts
                      && |r.value.slides| == |d.slides| + |recs|
                      && r.value.slides[..|d.slides|] == d.slides
                      && forall i :: 0 <= i < |recs| ==>
                           r.value.slides[|d.slides| + i] == TemplateContentSlide(d.layouts, recs[i], env)
  {
    if |recs| == 0 then Ok(d)
    else if |d.layouts| < 2 then Err(NoContentLayout)
    else
      var next := Deck(d.slides + [TemplateContentSlide(d.layouts, recs[0], env)], d.layouts);
      var r := AddTemplateSlides(next, recs[1..], env);
      if r.Ok? then
        assert r.value.slides[..|d.slides|] == next.slides[..|next.slides|][..|d.slides|];
        forall i | 1 <= i < |recs|
          ensures r.value.slides[|d.slides| + i] == TemplateContentSlide(d.layouts, recs[i], env)
        {
          assert recs[1..][i - 1] == recs[i];
        }
        r
      else r
  }

  /** `add_template_final_slide(prs, prs)`: the working deck is passed as
      the template, so the closing slide (layout 2) is appended iff the deck
      built so far has at least three slides; indexing a missing layout 2
      raises. */
  function AddClosingSlide(d: Deck): (r: Result<Deck, GenError>)
    ensures r.Err? <==> |d.slides| >= 3 && |d.layouts| < 3
    ensures r.Err? ==> r.error == NoClosingLayout
    ensures r.Ok? ==> && r.value.layouts == d.layouts
                      && |r.value.slides| == |d.slides| + (if |d.slides| >= 3 then 1 else 0)
                      && r.value.slides[..|d.slides|] == d.slides
                      && (|d.slides| >= 3 ==> r.value.slides[|d.slides|] == NewSlide(d.layouts, 2))
  {
    if |d.slides| >= 3 then
      if |d.layouts| < 3 then Err(NoClosingLayout) else Ok(AddSlide(d, 2))
    else Ok(d)
  }

  /** The template branch of `generate_presentation`, from the loaded
      template to the deck that is saved. */
  function BuildFromTemplate(t: Deck, data: seq<SlideData>, slideCount: int, topic: string, env: Env)
    : (r: Result<Deck, GenError>)
    ensures var n, k := |t.slides|, |Prefix(data, slideCount - 2)|;
            r.Ok? <==> n >= 1 && (k == 0 || |t.layouts| >= 2) && (n + k < 3 || |t.layouts| >= 3)
    ensures var n, k := |t.slides|, |Prefix(data, slideCount - 2)|;
            r.Err? ==> r.error == (if n == 0 then NoTitleSlide
                                   else if k > 0 && |t.layouts| < 2 then NoContentLayout
                                   else NoClosingLayout)
    ensures var recs := Prefix(data, slideCount - 2);
            var n, k := |t.slides|, |recs|;
            r.Ok? ==>
              && r.value.layouts == t.layouts
              && |r.value.slides| == n + k + (if n + k >= 3 then 1 else 0)
              && r.value.slides[0] == SetTitle(t.slides[0], topic)
              && (forall i :: 1 <= i < n ==> r.value.slides[i] == t.slides[i])
              && (forall i :: 0 <= i < k ==> r.value.slides[n + i] == TemplateContentSlide(t.layouts, recs[i], env))
              && (n + k >= 3 ==> r.value.slides[n + k] == NewSlide(t.layouts, 2))
  {
    match RetitleTemplate(t, topic)
    case Err(e) => Err(e)
    case Ok(d1) =>
      var recs := Prefix(data, slideCount - 2);
      match AddTemplateSlides(d1, recs, env)
      case Err(e) => Err(e)
      case Ok(d2) =>
        var r := AddClosingSlide(d2);
        if r.Ok? then
          assert r.value.slides[..|t.slides|] == d1.slides by {
            assert r.value.slides[..|t.slides|] == r.value.slides[..|d2.slides|][..|d1.slides|];
          }
          assert forall i :: 1 <= i < |t.slides| ==> r.value.slides[i] == d1.slides[1..][i - 1];
          forall i | 0 <= i < |recs|
            ensures r.value.slides[|t.slides| + i] == TemplateContentSlide(t.layouts, recs[i], env)
          {
            assert r.value.slides[|t.slides| + i] == d2.slides[|d1.slides| + i];
          }
          r
        else r
  }

  // ---------------------------------------------------------------------
  // Freeform mode

  /** The filling half of `add_slide`. The title is set when `zagolovok`
      is non-empty and the slide has a title shape; the body goes into the
      placeholder at position 1, whatever its type code, when `opisanie` is
      non-empty and there are at least two placeholders; a tried image that
      inserts is added as a free picture. */
  function FillFreeformSlide(s: Slide, rec: SlideData, env: Env): (r: Slide)
    ensures r.layout == s.layout
    ensures r.title == (if s.title.Some? && rec.zagolovok != "" then Some(rec.zagolovok) else s.title)
    ensures SameKinds(r.placeholders, s.placeholders)
    ensures forall j :: 0 <= j < |s.placeholders| ==> r.placeholders[j].image == s.placeholders[j].image
    ensures forall j :: 0 <= j < |s.placeholders| && !(j == 1 && rec.opisanie != "") ==>
              r.placeholders[j].paragraphs == s.placeholders[j].paragraphs
    ensures |s.placeholders| > 1 && rec.opisanie != "" ==>
              var ps := r.placeholders[1].paragraphs;
              |ps| > 0 && ps[|ps| - 1] == rec.opisanie && forall k :: 0 <= k < |ps| - 1 ==> ps[k] == ""
    ensures r.pictures == s.pictures + (if ImageInserted(rec, env) then [rec.photo.value] else [])
  {
    var s1 := if rec.zagolovok != "" then SetTitle(s, rec.zagolovok) else s;
    var s2 := if rec.opisanie != "" && |s1.placeholders| > 1 then ReplaceText(s1, 1, rec.opisanie) else s1;
    if ImageTried(rec, env) && env.imageLoads(rec.photo.value) then AddPicture(s2, rec.photo.value)
    else s2
  }

  /** A content slide of freeform mode: a fresh instance of layout 1 of the
      default template, filled from the record. */
  function FreeformContentSlide(layouts: seq<Layout>, rec: SlideData, env: Env): Slide
    requires |layouts| >= 2
  {
    FillFreeformSlide(NewSlide(layouts, 1), rec, env)
  }

  /** The title slide of freeform mode: layout 0 with `topic` as title. */
  function FreeformTitleSlide(layouts: seq<Layout>, topic: string): Slide
    requires |layouts| >= 1
  {
    SetTitle(NewSlide(layouts, 0), topic)
  }

  /** The loop over the records in freeform mode: one slide per record,
      appended in record order, existing slides kept. */
  function AddFreeformSlides(d: Deck, recs: seq<SlideData>, env: Env): (r: Deck)
    requires |d.layouts| >= 2
    decreases |recs|
    ensures r.layouts == d.layouts
    ensures |r.slides| == |d.slides| + |recs|
    ensures r.slides[..|d.slides|] == d.slides
    ensures forall i :: 0 <= i < |recs| ==> r.slides[|d.slides| + i] == FreeformContentSlide(d.layouts, recs[i], env)
  {
    if |recs| == 0 then d
    else
      var next := Deck(d.slides + [FreeformContentSlide(d.layouts, recs[0], env)], d.layouts);
      var r := AddFreeformSlides(next, recs[1..], env);
      assert r.slides[..|d.slides|] == next.slides[..|next.slides|][..|d.slides|];
      forall i | 1 <= i < |recs|
        ensures r.slides[|d.slides| + i] == FreeformContentSlide(d.layouts, recs[i], env)
      {
        assert recs[1..][i - 1] == recs[i];
      }
      r
  }

  /** The freeform branch of `generate_presentation`: a new deck over the
      default layouts, a title slide iff `topic` is non-empty, then one
      slide per record of `data[:slide_count - 1]` — the `- 1` is applied
      whether or not a title slide was made. */
  function BuildFreeform(data: seq<SlideData>, slideCount: int, topic: string, defaults: seq<Layout>, env: Env)
    : (d: Deck)
    requires |defaults| >= 2
    ensures d.layouts == defaults
    ensures var off := if topic != "" then 1 else 0;
            |d.slides| == off + |Prefix(data, slideCount - 1)|
    ensures topic != "" ==> d.slides[0] == FreeformTitleSlide(defaults, topic)
    ensures var off := if topic != "" then 1 else 0;
            var recs := Prefix(data, slideCount - 1);
            forall i :: 0 <= i < |recs| ==> d.slides[off + i] == FreeformContentSlide(defaults, recs[i], env)
  {
    var titled := Deck(if topic != "" then [FreeformTitleSlide(defaults, topic)] else [], defaults);
    AddFreeformSlides(titled, Prefix(data, slideCount - 1), env)
  }

  // ---------------------------------------------------------------------
  // The entry point

  /** `generate_presentation(data, slide_count, output_path, topic,
      template_mode)`. `template` is what python-pptx makes of the file at
      the template path (none when it cannot open it); `defaults` are the
      layouts of python-pptx's built-in template. */
  function Generate(data: seq<SlideData>, slideCount: int, outputPath: string, topic: string,
                    templateMode: bool, env: Env, template: Option<Deck>, defaults: seq<Layout>)
    : (r: Generation)
    requires |defaults| >= 2
    ensures r.NothingToGenerate? <==> |data| == 0 && topic == ""
    ensures r.Built? ==> r.saved == env.canSave(outputPath)
    ensures !templateMode && r != NothingToGenerate ==>
              r.Built? && |r.deck.slides| == (if topic != "" then 1 else 0) + |Prefix(data, slideCount - 1)|
    ensures templateMode && r != NothingToGenerate && !env.fileExists(TemplatePath) ==>
              r == Raised(TemplateNotFound)
    ensures templateMode && r != NothingToGenerate && env.fileExists(TemplatePath) && template.None? ==>
              r == Raised(TemplateUnreadable)
    ensures !templateMode && r != NothingToGenerate ==>
              r.deck == BuildFreeform(data, slideCount, topic, defaults, env)
    ensures templateMode && r != NothingToGenerate && env.fileExists(TemplatePath) && template.Some? ==>
              var b := BuildFromTemplate(template.value, data, slideCount, topic, env);
              && (r.Built? <==> b.Ok?)
              && (r.Built? ==> r.deck == b.value)
              && (r.Raised? ==> r.error == b.error)
  {
    if |data| == 0 && topic == "" then NothingToGenerate
    else
      var built :=
        if templateMode then
          if !env.fileExists(TemplatePath) then Err(TemplateNotFound)
          else if template.None? then Err(TemplateUnreadable)
          else BuildFromTemplate(template.value, data, slideCount, topic, env)
        else Ok(BuildFreeform(data, slideCount, topic, defaults, env));
      match built
      case Err(e) => Raised(e)
      case Ok(deck) => Built(deck, env.canSave(outputPath))
  }
}
