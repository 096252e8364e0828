/** Properties of the slide-assembly policy that relate several calls or
    pin down concrete decks. */
module GeneratorLemmas {
  import opened Outcomes
  import opened PySlice
  import opened Models
  import opened Presentation
  import opened Generator

  /** Without a topic the freeform deck still holds only
      `slide_count - 1` records: the reserved title slot is not given back. */
  lemma FreeformWithoutTopicKeepsReservedSlot(data: seq<SlideData>, slideCount: int, defaults: seq<Layout>, env: Env)
    requires |defaults| >= 2
    requires 1 <= slideCount <= |data|
    ensures |BuildFreeform(data, slideCount, "", defaults, env).slides| == slideCount - 1
  {
  }

  /** A slide count of zero or less drops records from the end, as Python
      slicing does: `slide_count = 0` keeps all records but the last. */
  lemma FreeformNonPositiveCountDropsFromEnd(data: seq<SlideData>, slideCount: int, topic: string,
                                             defaults: seq<Layout>, env: Env)
    requires |defaults| >= 2
    requires slideCount <= 0
    ensures var d := BuildFreeform(data, slideCount, topic, defaults, env);
            var off := if topic != "" then 1 else 0;
            var dropped := if 1 - slideCount < |data| then 1 - slideCount else |data|;
            && |d.slides| == off + |data| - dropped
            && forall i :: 0 <= i < |data| - dropped ==> d.slides[off + i] == FreeformContentSlide(defaults, data[i], env)
  {
  }

  /** A topic with no records and `slide_count = 1` yields a deck holding
      only the title slide. */
  lemma TopicOnlyDeck(topic: string, defaults: seq<Layout>, env: Env, outputPath: string)
    requires |defaults| >= 2
    requires topic != ""
    ensures var r := Generate([], 1, outputPath, topic, false, env, None, defaults);
            r.Built? && r.deck.slides == [FreeformTitleSlide(defaults, topic)]
  {
  }

  /** The closing slide follows the size of the working deck, not the
      template: a one-slide template with two added records still gets one,
      although the template has no third slide. */
  lemma ClosingSlideCountsWorkingDeck(t: Deck, a: SlideData, b: SlideData, env: Env)
    requires |t.slides| == 1 && |t.layouts| == 3
    ensures var r := BuildFromTemplate(t, [a, b], 4, "topic", env);
            r.Ok? && |r.value.slides| == 4 && r.value.slides[3] == NewSlide(t.layouts, 2)
  {
  }

  /** With a three-slide template and enough records the deck has
      `slide_count + 2` slides: the template's own content and closing
      slides stay, and one more closing slide is appended. */
  lemma ThreeSlideTemplateSize(t: Deck, data: seq<SlideData>, slideCount: int, topic: string, env: Env)
    requires |t.slides| == 3 && |t.layouts| >= 3
    requires 3 <= slideCount && slideCount - 2 <= |data|
    ensures var r := BuildFromTemplate(t, data, slideCount, topic, env);
            r.Ok? && |r.value.slides| == slideCount + 2
  {
  }

  /** A slide count of two or less with a one-slide template adds no
      content slide, so a template with fewer than two layouts does not
      raise. */
  lemma LayoutCheckNeedsARecord(t: Deck, data: seq<SlideData>, topic: string, env: Env)
    requires |t.slides| == 1 && |t.layouts| < 2
    requires |data| > 0
    ensures BuildFromTemplate(t, data, 2, topic, env).Ok?
    ensures BuildFromTemplate(t, data, 3, topic, env) == Err(NoContentLayout)
  {
  }

  /** An image that is not inserted — the path is falsy, the file is
      missing, or inserting it raises — leaves the template slide exactly
      as a record without a photo would. */
  lemma TemplateImageFailureIsNoImage(s: Slide, rec: SlideData, env: Env)
    requires !ImageInserted(rec, env)
    ensures FillTemplateSlide(s, rec, env) == FillTemplateSlide(s, rec.(photo := None), env)
  {
  }

  /** The same for freeform slides. */
  lemma FreeformImageFailureIsNoImage(s: Slide, rec: SlideData, env: Env)
    requires !ImageInserted(rec, env)
    ensures FillFreeformSlide(s, rec, env) == FillFreeformSlide(s, rec.(photo := None), env)
  {
  }

  /** Image outcomes never decide whether generation raises: changing
      which images can be inserted changes only slide contents. */
  lemma ImageFailuresNeverAbort(data: seq<SlideData>, slideCount: int, outputPath: string, topic: string,
                                templateMode: bool, env: Env, loads: string -> bool,
                                template: Option<Deck>, defaults: seq<Layout>)
    requires |defaults| >= 2
    ensures var r1 := Generate(data, slideCount, outputPath, topic, templateMode, env, template, defaults);
            var r2 := Generate(data, slideCount, outputPath, topic, templateMode, env.(imageLoads := loads),
                               template, defaults);
            && (r1.Built? <==> r2.Built?)
            && (r1.Raised? ==> r1 == r2)
            && (r1.Built? ==> |r1.deck.slides| == |r2.deck.slides| && r1.saved == r2.saved)
  {
  }

  /** A layout with title, content and picture placeholders, filled from
      {"T", "B", "img.png"} with an existing, insertable image: the title
      reads "T", the body ends with the paragraph "B" and the picture
      placeholder holds the image; no free picture is added. */
  lemma TemplateFillExample(env: Env)
    requires env.fileExists("img.png") && env.imageLoads("img.png")
    ensures var layouts := [Layout(true, []), Layout(true, [TitleKind, ContentKind, PictureKind])];
            var s := TemplateContentSlide(layouts, SlideData("T", "B", Some("img.png")), env);
            && s.title == Some("T")
            && |s.placeholders| == 3
            && |s.placeholders[1].paragraphs| > 0
            && s.placeholders[1].paragraphs[|s.placeholders[1].paragraphs| - 1] == "B"
            && s.placeholders[2].image == Some("img.png")
            && s.pictures == []
  {
  }

  /** First match: with two content placeholders only the first receives
      the description; the second keeps its paragraphs. */
  lemma SecondContentPlaceholderUntouched(s: Slide, rec: SlideData, env: Env, i: nat, j: nat)
    requires i < j < |s.placeholders|
    requires s.placeholders[i].kind == ContentKind && s.placeholders[j].kind == ContentKind
    ensures FillTemplateSlide(s, rec, env).placeholders[j].paragraphs == s.placeholders[j].paragraphs
  {
  }

  // ---------------------------------------------------------------------
  // Reference decks written out as whole sequences

  /** The template-mode deck described position by position: the retitled
      first slide, the remaining template slides, one content slide per kept
      record, and a closing slide when the deck has reached three slides. */
  function ExpectedTemplateDeck(t: Deck, recs: seq<SlideData>, topic: string, env: Env): Deck
    requires |t.slides| >= 1 && (|recs| == 0 || |t.layouts| >= 2)
    requires |t.slides| + |recs| < 3 || |t.layouts| >= 3
  {
    var n, k := |t.slides|, |recs|;
    var total := n + k + (if n + k >= 3 then 1 else 0);
    Deck(seq(total, i requires 0 <= i < total =>
               if i == 0 then SetTitle(t.slides[0], topic)
               else if i < n then t.slides[i]
               else if i < n + k then TemplateContentSlide(t.layouts, recs[i - n], env)
               else NewSlide(t.layouts, 2)),
         t.layouts)
  }

  /** Template mode builds exactly the reference deck whenever it does not
      raise. */
  lemma BuildFromTemplateIsExpected(t: Deck, data: seq<SlideData>, slideCount: int, topic: string, env: Env)
    requires BuildFromTemplate(t, data, slideCount, topic, env).Ok?
    ensures BuildFromTemplate(t, data, slideCount, topic, env).value
            == ExpectedTemplateDeck(t, Prefix(data, slideCount - 2), topic, env)
  {
  }

  /** The freeform deck described directly: the title slide when there is
      a topic, then one content slide per kept record. */
  function ExpectedFreeformDeck(recs: seq<SlideData>, topic: string, defaults: seq<Layout>, env: Env): Deck
    requires |defaults| >= 2
  {
    var title := if topic != "" then [FreeformTitleSlide(defaults, topic)] else [];
    Deck(title + seq(|recs|, i requires 0 <= i < |recs| => FreeformContentSlide(defaults, recs[i], env)), defaults)
  }

  /** Freeform mode builds exactly the reference deck. */
  lemma BuildFreeformIsExpected(data: seq<SlideData>, slideCount: int, topic: string, defaults: seq<Layout>, env: Env)
    requires |defaults| >= 2
    ensures BuildFreeform(data, slideCount, topic, defaults, env)
            == ExpectedFreeformDeck(Prefix(data, slideCount - 1), topic, defaults, env)
  {
  }
}
