# generate-presentation: the slide-assembly policy in Dafny

This project models the deck-assembly core of the generate-presentation
web service. The service builds a `.pptx` slide deck from per-slide records
(`zagolovok` = title, `opisanie` = description, optional `photo`). It works
either from scratch ("freeform") or on top of a template file
("template mode"). The model replaces the python-pptx object tree with an
abstract deck:

- a `Deck` is a sequence of slides plus a sequence of layouts;
- a `Slide` has the text of its title shape (or none), its placeholders in
  the order `slide.placeholders` yields them, each with a type code (1 title, 7 content, 18 picture),
  paragraphs and an optional image, and its free pictures;
- file existence, image insertion and saving are oracles (`Env`), and so
  are the copy results of uploads (`Upload.copyOk`).

Modules:

- `Outcomes` holds `Option`/`Result`.
- `PySlice` models Python's `s[:stop]`.
- `Models` holds the pydantic records and their validation from decoded JSON.
- `Presentation` is the abstract deck, with first-match placeholder lookup and `add_slide`.
- `Generator` is `generate_presentation` and its helpers.
- `GeneratorLemmas` holds properties across calls.
- `Endpoint` holds the pure steps of `POST /generate-presentation/`.
- `TemplateCheck` is the template health report.

The program's own comments state an intent that the code does not always
meet. The model follows the code:

- With no records and no topic, the generator only prints a message and returns (presentation_generator.py:132-134). Nothing is raised.
- In freeform mode the record limit is `slide_count - 1` (presentation_generator.py:163), even when no title slide is made.
- In template mode, the comment at presentation_generator.py:141 reserves two slots, one for the title slide and one for the closing slide. But the template's own slides all stay in the deck. A three-slide template with enough records therefore yields `slide_count + 2` slides.
- The docstring at presentation_generator.py:87 says the closing slide is copied from the template if it exists there. The call at presentation_generator.py:144 passes the working deck as the template. So the closing slide depends on the size of the working deck, not on whether the template has a third slide.
- The freeform body goes to the placeholder at position 1, whatever its role.

## Model

| member | source | states |
|---|---|---|
| PySlice.Prefix | generate_presentation/presentation_generator.py:141 | `data[:stop]` is a prefix of `data`; its length is `min(stop, n)` for a non-negative stop and `max(0, n + stop)` for a negative one |
| PySlice.NegativeStopDropsTail | generate_presentation/presentation_generator.py:163 | a negative bound removes exactly the last `-stop` records (or all of them) and keeps the rest in order |
| PySlice.PrefixMonotone | generate_presentation/presentation_generator.py:163 | among bounds of the same sign a larger bound keeps a longer prefix, the shorter result being a prefix of the longer |
| Presentation.FirstOfKind | generate_presentation/presentation_generator.py:50-54 | the lookup yields the first placeholder with the type code in document order, or nothing iff no placeholder has it |
| Presentation.NewSlide | generate_presentation/presentation_generator.py:38 | a slide made from a layout has a title shape iff the layout does, one empty placeholder per layout placeholder with the same type code, and no pictures |
| Presentation.AddSlide | generate_presentation/presentation_generator.py:90 | adding a slide appends one fresh slide of the given layout and keeps every earlier slide and the layouts |
| Presentation.SetTitle | generate_presentation/presentation_generator.py:26-28 | the title text becomes the given text when a title shape exists; a slide without one is unchanged; nothing else changes |
| Presentation.ReplaceText | generate_presentation/presentation_generator.py:56-58 | after clear-and-append the placeholder's last paragraph is the text and every earlier one is empty; other placeholders and the image are untouched |
| Presentation.FillPicture | generate_presentation/presentation_generator.py:75 | inserting into a placeholder sets only that placeholder's image |
| Presentation.AddPicture | generate_presentation/presentation_generator.py:79 | a free picture is appended after the existing ones; nothing else changes |
| Generator.FirstOfKindByKinds | generate_presentation/presentation_generator.py:64-68 | first-match lookup depends only on type codes, so the picture lookup after the text steps finds the same placeholder as on the fresh slide |
| Generator.RetitleTemplate | generate_presentation/presentation_generator.py:21-31 | a template with no slides raises; otherwise only slide 0's title text changes, to the topic, and only if it has a title shape |
| Generator.FillTemplateText | generate_presentation/presentation_generator.py:41-61 | the title is set iff a title shape exists and `zagolovok` is non-empty; only the first type-7 placeholder gets `opisanie` as last paragraph, and only if `opisanie` is non-empty |
| Generator.InsertTemplateImage | generate_presentation/presentation_generator.py:63-84 | an image is placed only if `photo` is truthy, exists and inserts; it goes into the first type-18 placeholder, else it becomes a free picture; a failure leaves the slide unchanged |
| Generator.FillTemplateSlide | generate_presentation/presentation_generator.py:33-84 | the whole content-slide fill: title, first-content-placeholder body and first-picture-placeholder image rules together, later placeholders untouched |
| Generator.AddTemplateSlides | generate_presentation/presentation_generator.py:141-142 | raises iff at least one record is processed and there are fewer than 2 layouts; otherwise appends one filled layout-1 slide per record in order, keeping existing slides |
| Generator.AddClosingSlide | generate_presentation/presentation_generator.py:86-93 | a layout-2 slide is appended iff the working deck has at least 3 slides; a missing layout 2 then raises |
| Generator.BuildFromTemplate | generate_presentation/presentation_generator.py:136-144 | success iff there is a title slide and the needed layouts exist; the deck is the retitled template slides, then `data[:slide_count - 2]` as content slides in order, then a closing slide iff the count so far is at least 3 |
| Generator.FillFreeformSlide | generate_presentation/presentation_generator.py:95-129 | the title is set iff `zagolovok` is non-empty and a title shape exists; `opisanie` goes into position 1 iff non-empty and there are at least 2 placeholders; an inserted image is a free picture |
| Generator.AddFreeformSlides | generate_presentation/presentation_generator.py:163-164 | one filled layout-1 slide per record, in record order, after the existing slides |
| Generator.BuildFreeform | generate_presentation/presentation_generator.py:145-164 | the deck has `(topic non-empty ? 1 : 0) + len(data[:slide_count - 1])` slides: the title slide first when there is a topic, then the content slides in input order |
| Generator.Generate | generate_presentation/presentation_generator.py:131-170 | returns early with nothing built iff there is no data and no topic; the save result is reported, not raised; freeform always builds its deck; a missing or unreadable template raises; otherwise template mode builds or raises exactly as the template branch does |
| GeneratorLemmas.BuildFromTemplateIsExpected | generate_presentation/presentation_generator.py:136-144 | whenever template mode does not raise, its deck equals the reference deck written position by position: retitled slide 0, the other template slides, the content slides, then the closing slide if any |
| GeneratorLemmas.BuildFreeformIsExpected | generate_presentation/presentation_generator.py:145-164 | the freeform deck equals the reference deck: the optional title slide followed by one content slide per kept record |
| GeneratorLemmas.FreeformWithoutTopicKeepsReservedSlot | generate_presentation/presentation_generator.py:163 | without a topic the freeform deck still stops at `slide_count - 1` records |
| GeneratorLemmas.FreeformNonPositiveCountDropsFromEnd | generate_presentation/presentation_generator.py:163-164 | a slide count of 0 or less drops `1 - slide_count` records from the end and keeps the rest in order |
| GeneratorLemmas.TopicOnlyDeck | generate_presentation/presentation_generator.py:148-164 | a topic, no records and `slide_count = 1` give a deck holding only the title slide |
| GeneratorLemmas.ClosingSlideCountsWorkingDeck | generate_presentation/presentation_generator.py:144 | a one-slide template with two records still gets the closing slide, because the working deck is passed as the template |
| GeneratorLemmas.ThreeSlideTemplateSize | generate_presentation/presentation_generator.py:137-144 | a three-slide template with enough records yields `slide_count + 2` slides |
| GeneratorLemmas.LayoutCheckNeedsARecord | generate_presentation/presentation_generator.py:35-36 | a template with too few layouts raises only when some record is processed |
| GeneratorLemmas.TemplateImageFailureIsNoImage | generate_presentation/presentation_generator.py:71-84 | a falsy, missing or failing image leaves the template slide as if there were no photo |
| GeneratorLemmas.FreeformImageFailureIsNoImage | generate_presentation/presentation_generator.py:125-129 | a falsy, missing or failing image leaves the freeform slide as if there were no photo |
| GeneratorLemmas.ImageFailuresNeverAbort | generate_presentation/presentation_generator.py:81-82 | which images can be inserted never changes whether generation raises, the slide count, or the save result |
| GeneratorLemmas.TemplateFillExample | generate_presentation/presentation_generator.py:42-79 | title+content+picture layout filled from ("T", "B", "img.png"): title "T", body ending in "B", image in the picture placeholder, no free picture |
| GeneratorLemmas.SecondContentPlaceholderUntouched | generate_presentation/presentation_generator.py:51-54 | with two content placeholders the later one keeps its paragraphs |
| Endpoint.NormaliseOutputPath | generate_presentation/main.py:56 | the result always ends with ".pptx"; it equals the request iff the request ends with ".pptx", else it is "output.pptx" |
| Endpoint.NormaliseIdempotent | generate_presentation/main.py:56 | normalising the output path twice is the same as once |
| Endpoint.UploadPath | generate_presentation/main.py:46 | an upload is stored under `uploads/` unless its name is absolute |
| Endpoint.RemapPhotos | generate_presentation/main.py:44-53 | file i replaces slide i's photo iff slide i exists and its photo is truthy; the first failing copy gives 500; slide count, titles and descriptions never change; slides past the files keep their photo |
| Endpoint.RemapPhotosIsPointwise | generate_presentation/main.py:44-51 | with no failing copy, the result is each slide with its text kept and its photo remapped by position |
| Endpoint.ExtraFilesIgnored | generate_presentation/main.py:44-45 | files past the last slide can be dropped without changing the outcome |
| Endpoint.PrepareGeneration | generate_presentation/main.py:30-56 | malformed JSON and validation failures give 422; a valid request with a failing upload copy gives 500; a valid request with no failing copy succeeds and hands over each validated slide with its photo remapped by position, the slide count, and a ".pptx" output path |
| Endpoint.Respond | generate_presentation/main.py:60-61 | the file is returned iff it exists after generation, else 500 |
| Models.ValidateSlide | generate_presentation/models.py:4-7 | accepted iff an object with string `zagolovok` and `opisanie` and a `photo` that is absent, null or a string; an omitted photo is none |
| Models.ValidateSlides | generate_presentation/models.py:10 | a slide list is accepted iff every element is, keeping length and order |
| Models.ValidatePresentationRequest | generate_presentation/models.py:9-12 | accepted iff `slides` is a list of valid slide objects, `slide_count` an integer and `output_path` absent or a string; the slides are the validated list elements in order, and the path defaults to "output.pptx" |
| Models.ValidateGenerateRequest | generate_presentation/models.py:14-18 | `topic` and `slide_count` are mandatory; `output_path` defaults to "output.pptx" and `template_mode` to false |
| Models.RecordDefaults | generate_presentation/models.py:7-18 | the constructor defaults: photo none, output path "output.pptx", template mode false |
| Models.MandatoryFields | generate_presentation/models.py:5-16 | removing any field without a default makes validation fail |
| TemplateCheck.ContentReport | check_template.py:26-33 | title, body and picture are each reported found iff some placeholder of the slide has type code 1, 7 or 18 |
| TemplateCheck.CheckTemplate | check_template.py:4-43 | a missing file gives only "not found"; fewer than 2 slides stop after the count; otherwise title, content-slide and final-slide findings in order |
| TemplateCheck.EarlyStops | check_template.py:5-16 | a missing file or a template with fewer than 2 slides produces no placeholder findings |
| TemplateCheck.ReportedFindings | check_template.py:18-40 | the title is reported iff slide 0 has a title shape, the roles iff slide 1 has those type codes, the final slide iff there are more than 2 slides |
| TemplateCheck.ContentSlideMissingUnreachable | check_template.py:34-35 | the "content slide missing" finding never appears |

## Left out

- generate_presentation/llm.py (the language-model client) is not part of this model. It is network I/O with no logic to verify.
- FastAPI routing, the static mount, multipart parsing, copying upload bytes, `FileResponse` and the shutdown cleanup (generate_presentation/main.py:12-23, 64-81) are framework plumbing. Whether a copy succeeds and whether the output file exists are inputs.
- The call at generate_presentation/main.py:57 passes three arguments to a function that requires `topic`, so as written it raises `TypeError`. `Endpoint.PrepareGeneration` stops before that call, `Endpoint.Respond` models the existence check after it, and no default topic is invented.
- Endpoint.UploadPath: `pathlib`'s path normalisation (dropping `.` parts, doubled or trailing slashes) is not modelled.
- Models.ValidateSlide, Models.ValidatePresentationRequest, Models.ValidateGenerateRequest: only JSON values of exactly the declared type are accepted. Pydantic's coercions (such as "3" or 3.0 for an integer) are not modelled, so these reject some requests the source accepts.
- The generator takes records as dictionaries. The model takes `SlideData`, where an absent key behaves like an empty string or no photo, which is what the source's `'key' in data and data['key']` tests amount to.
- How python-pptx resolves `shapes.title` is not modelled. A slide's title is a separate field, not tied to its type-1 placeholder.
- `text_frame.clear()` is modelled as leaving one empty paragraph. The contracts claim only that the text is the last paragraph and that earlier paragraphs are empty.
- Generator.FillFreeformSlide: python-pptx's `placeholders[1]` looks a placeholder up by its idx attribute. The model uses position 1, which is the same thing when idx values follow document order, as in the default layouts.
- The order in which `slide.placeholders` yields placeholders (python-pptx sorts them by idx) is not modelled. A slide's placeholder sequence is taken to be in that order already. This covers the first-match scans of template mode (presentation_generator.py:51, :65) as well as the positional freeform lookup.
- Fonts, point sizes, alignment, the slide size (10 × 5.625 inches) and all `Inches(...)` positions are presentational and are not modelled. So is `create_presentation`'s unused `slide_count`.
- Logging and `print` output of the generator are not modelled. The template checker's printed lines are modelled as `Diagnostic` values.
- Python-pptx exceptions other than those named in `GenError`, and any exception inside check_template.py after the file is opened, are not modelled. Only failing to open the file is modelled, as `CheckFailed`.
- tests/test_main.py targets a route that does not exist in main.py, so it grounds no property.
- No shown code validates the template-mode `slide_count` range, and no `/generate-from-topic/` route exists in main.py, so neither is modelled.
