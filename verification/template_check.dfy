/** The diagnostic report of check_template.py over an abstract template
    file. */
module TemplateCheck {
  import opened Presentation

  /** What is found at the template path. */
  datatype TemplateFile = Absent | Unreadable | Readable(deck: Deck)

  /** One printed diagnostic, in the order the checker prints them. */
  datatype Diagnostic =
    | NotFound                                           // no file at the path
    | Loaded(slideCount: nat)                            // loaded, with its slide count
    | TooFewSlides                                       // fewer than two slides
    | TitlePlaceholder(found: bool)                      // slide 0 has a title shape
    | ContentSlide(title: bool, body: bool, picture: bool)
    | ContentSlideMissing
    | FinalSlide(found: bool)                            // more than two slides
    | CheckFailed                                        // python-pptx could not open the file

  /** The placeholder part of the report for the content slide (slide 1). */
  function ContentReport(s: Slide): (d: Diagnostic)
    ensures d.ContentSlide?
    ensures d.title <==> HasKind(s.placeholders, TitleKind)
    ensures d.body <==> HasKind(s.placeholders, ContentKind)
    ensures d.picture <==> HasKind(s.placeholders, PictureKind)
  {
    ContentSlide(FirstOfKind(s.placeholders, TitleKind).Some?,
                 FirstOfKind(s.placeholders, ContentKind).Some?,
                 FirstOfKind(s.placeholders, PictureKind).Some?)
  }

  /** `check_template`: the diagnostics it prints, in order. */
  function CheckTemplate(f: TemplateFile): (report: seq<Diagnostic>)
    ensures f.Absent? ==> report == [NotFound]
    ensures f.Unreadable? ==> report == [CheckFailed]
    ensures f.Readable? ==> |report| >= 2 && report[0] == Loaded(|f.deck.slides|)
    ensures f.Readable? && |f.deck.slides| < 2 ==> report == [Loaded(|f.deck.slides|), TooFewSlides]
    ensures f.Readable? && |f.deck.slides| >= 2 ==>
              && |report| == 4
              && report[1] == TitlePlaceholder(f.deck.slides[0].title.Some?)
              && report[2] == ContentReport(f.deck.slides[1])
              && report[3] == FinalSlide(|f.deck.slides| > 2)
  {
    match f
    case Absent => [NotFound]
    case Unreadable => [CheckFailed]
    case Readable(d) =>
      var n := |d.slides|;
      if n < 2 then [Loaded(n), TooFewSlides]
      else
        [Loaded(n), TitlePlaceholder(d.slides[0].title.Some?)]
        + (if n > 1 then [ContentReport(d.slides[1])] else [ContentSlideMissing])
        + [FinalSlide(n > 2)]
  }

  /** A missing file is reported and nothing else is checked; a template
      with fewer than two slides is reported before any placeholder is
      inspected. */
  lemma EarlyStops(f: TemplateFile)
    ensures f.Absent? ==> forall k :: 0 <= k < |CheckTemplate(f)| ==> CheckTemplate(f)[k] == NotFound
    ensures f.Readable? && |f.deck.slides| < 2 ==>
              forall k :: 0 <= k < |CheckTemplate(f)| ==>
                !CheckTemplate(f)[k].TitlePlaceholder? && !CheckTemplate(f)[k].ContentSlide?
  {
  }

  /** The title slide is reported as having a title iff slide 0 has a
      title shape; the content slide reports each role iff some placeholder
      of slide 1 has its type code; the final slide is reported found iff
      there are more than two slides. */
  lemma ReportedFindings(d: Deck)
    requires |d.slides| >= 2
    ensures TitlePlaceholder(true) in CheckTemplate(Readable(d)) <==> d.slides[0].title.Some?
    ensures FinalSlide(true) in CheckTemplate(Readable(d)) <==> |d.slides| > 2
    ensures forall t, b, p :: ContentSlide(t, b, p) in CheckTemplate(Readable(d)) ==>
              && (t <==> HasKind(d.slides[1].placeholders, TitleKind))
              && (b <==> HasKind(d.slides[1].placeholders, ContentKind))
              && (p <==> HasKind(d.slides[1].placeholders, PictureKind))
  {
  }

  /** The branch that reports a missing content slide can never be taken:
      it sits behind the two-slide check. */
  lemma ContentSlideMissingUnreachable(f: TemplateFile)
    ensures ContentSlideMissing !in CheckTemplate(f)
  {
  }
}
