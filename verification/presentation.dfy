/** An abstract presentation: the part of the python-pptx object tree that
    the generator reads and writes. Fonts, sizes and geometry are not kept. */
module Presentation {
  import opened Outcomes

  /** Placeholder type codes as the generator and the template checker use
      them. */
  const TitleKind: int := 1
  const ContentKind: int := 7
  const PictureKind: int := 18

  /** What `text_frame.clear()` leaves behind: python-pptx keeps the first
      paragraph and empties it. */
  const ClearedParagraphs: seq<string> := [""]

  /** A placeholder: its type code, the paragraphs of its text frame and the
      image inserted into it, if any. */
  datatype Placeholder = Placeholder(kind: int, paragraphs: seq<string>, image: Option<string>)

  /** A slide: the layout it was made from, the text of its title shape
      (none when the slide has no title shape), its placeholders in the
      order `slide.placeholders` yields them, and the pictures added as free
      shapes. */
  datatype Slide = Slide(layout: nat, title: Option<string>, placeholders: seq<Placeholder>,
                         pictures: seq<string>)

  /** A layout: whether it has a title shape and the type codes of the
      placeholders a slide made from it receives. */
  datatype Layout = Layout(hasTitle: bool, kinds: seq<int>)

  /** A presentation: its slides and its slide layouts, both in order. */
  datatype Deck = Deck(slides: seq<Slide>, layouts: seq<Layout>)

  /** The index of the first placeholder with type code `kind`, scanning in
      the order `slide.placeholders` yields them. */
  function FirstOfKind(ps: seq<Placeholder>, kind: int): (r: Option<nat>)
    ensures r.Some? ==> r.value < |ps| && ps[r.value].kind == kind
    ensures r.Some? ==> forall j :: 0 <= j < r.value ==> ps[j].kind != kind
    ensures r.None? <==> forall j :: 0 <= j < |ps| ==> ps[j].kind != kind
  {
    if |ps| == 0 then None
    else if ps[0].kind == kind then Some(0)
    else match FirstOfKind(ps[1..], kind)
      case None => None
      case Some(i) => Some(i + 1)
  }

  /** `any(p.placeholder_format.type == kind for p in ps)`. */
  predicate HasKind(ps: seq<Placeholder>, kind: int)
  {
    exists j :: 0 <= j < |ps| && ps[j].kind == kind
  }

  /** A fresh slide made from layout `i`: an empty title shape when the
      layout has one, one empty placeholder per layout placeholder, no
      pictures. */
  function NewSlide(layouts: seq<Layout>, i: nat): (s: Slide)
    requires i < |layouts|
    ensures s.layout == i && s.pictures == []
    ensures s.title.Some? <==> layouts[i].hasTitle
    ensures |s.placeholders| == |layouts[i].kinds|
    ensures forall j :: 0 <= j < |s.placeholders| ==>
              s.placeholders[j] == Placeholder(layouts[i].kinds[j], [], None)
  {
    Slide(i, if layouts[i].hasTitle then Some("") else None,
          seq(|layouts[i].kinds|, j requires 0 <= j < |layouts[i].kinds| => Placeholder(layouts[i].kinds[j], [], None)),
          [])
  }

  /** `prs.slides.add_slide(prs.slide_layouts[i])`: appends a fresh slide
      and changes nothing else. */
  function AddSlide(d: Deck, i: nat): (r: Deck)
    requires i < |d.layouts|
    ensures r.layouts == d.layouts
    ensures |r.slides| == |d.slides| + 1
    ensures r.slides[..|d.slides|] == d.slides
    ensures r.slides[|d.slides|] == NewSlide(d.layouts, i)
  {
    Deck(d.slides + [NewSlide(d.layouts, i)], d.layouts)
  }

  /** `title.text = text` when the slide has a title shape; otherwise the
      slide is unchanged. */
  function SetTitle(s: Slide, text: string): (r: Slide)
    ensures s.title.Some? ==> r.title == Some(text)
    ensures s.title.None? ==> r == s
    ensures r.(title := s.title) == s
  {
    if s.title.Some? then s.(title := Some(text)) else s
  }

  /** `clear()` then `add_paragraph().text = text` on placeholder `j`. */
  function ReplaceText(s: Slide, j: nat, text: string): (r: Slide)
    requires j < |s.placeholders|
    ensures |r.placeholders| == |s.placeholders|
    ensures r.placeholders[j].kind == s.placeholders[j].kind
    ensures r.placeholders[j].image == s.placeholders[j].image
    ensures |r.placeholders[j].paragraphs| > 0
    ensures r.placeholders[j].paragraphs[|r.placeholders[j].paragraphs| - 1] == text
    ensures forall k :: 0 <= k < |r.placeholders[j].paragraphs| - 1 ==> r.placeholders[j].paragraphs[k] == ""
    ensures forall k :: 0 <= k < |s.placeholders| && k != j ==> r.placeholders[k] == s.placeholders[k]
    ensures r.(placeholders := s.placeholders) == s
  {
    s.(placeholders := s.placeholders[j := s.placeholders[j].(paragraphs := ClearedParagraphs + [text])])
  }

  /** `insert_picture(path)` on placeholder `j`. */
  function FillPicture(s: Slide, j: nat, path: string): (r: Slide)
    requires j < |s.placeholders|
    ensures |r.placeholders| == |s.placeholders|
    ensures r.placeholders[j] == s.placeholders[j].(image := Some(path))
    ensures forall k :: 0 <= k < |s.placeholders| && k != j ==> r.placeholders[k] == s.placeholders[k]
    ensures r.(placeholders := s.placeholders) == s
  {
    s.(placeholders := s.placeholders[j := s.placeholders[j].(image := Some(path))])
  }

  /** `shapes.add_picture(path, ...)` at the fixed position: a new free
      picture after the existing ones. */
  function AddPicture(s: Slide, path: string): (r: Slide)
    ensures r.pictures == s.pictures + [path]
    ensures r.(pictures := s.pictures) == s
  {
    s.(pictures := s.pictures + [path])
  }
}
