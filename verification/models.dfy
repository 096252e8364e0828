/** The request records of generate_presentation/models.py and the
    validation that turns a decoded JSON value into them. */
module Models {
  import opened Outcomes

  /** A decoded JSON value. Non-integral numbers are kept opaque. */
  datatype Json =
    | JNull
    | JBool(b: bool)
    | JInt(i: int)
    | JFraction
    | JStr(s: string)
    | JArr(items: seq<Json>)
    | JObj(fields: map<string, Json>)

  const DefaultOutputPath: string := "output.pptx"

  /** One slide as supplied by the caller: a title, a description and an
      optional image path. */
  datatype SlideData = SlideData(zagolovok: string, opisanie: string, photo: Option<string> := None)

  /** The body of `POST /generate-presentation/`. */
  datatype PresentationRequest =
    PresentationRequest(slides: seq<SlideData>, slideCount: int, outputPath: string := DefaultOutputPath)

  /** The topic-driven request record. */
  datatype GenerateRequest =
    GenerateRequest(topic: string, slideCount: int, outputPath: string := DefaultOutputPath,
                    templateMode: bool := false)

  /** Python truthiness of an optional string: present and non-empty. */
  predicate Truthy(photo: Option<string>)
  {
    photo.Some? && photo.value != ""
  }

  predicate IsStrField(fields: map<string, Json>, key: string)
  {
    key in fields && fields[key].JStr?
  }

  predicate IsIntField(fields: map<string, Json>, key: string)
  {
    key in fields && fields[key].JInt?
  }

  /** A defaulted field is acceptable when absent or of the right kind. */
  predicate OptionalStrOk(fields: map<string, Json>, key: string)
  {
    key !in fields || fields[key].JStr?
  }

  /** `SlideData(**obj)`: both text fields are mandatory strings; `photo` may
      be absent, `null` or a string. Unknown keys are ignored. */
  function ValidateSlide(j: Json): (r: Option<SlideData>)
    ensures r.Some? <==>
              && j.JObj?
              && IsStrField(j.fields, "zagolovok")
              && IsStrField(j.fields, "opisanie")
              && ("photo" !in j.fields || j.fields["photo"].JNull? || j.fields["photo"].JStr?)
    ensures r.Some? ==>
              && r.value.zagolovok == j.fields["zagolovok"].s
              && r.value.opisanie == j.fields["opisanie"].s
              && (r.value.photo.Some? <==> "photo" in j.fields && j.fields["photo"].JStr?)
              && (r.value.photo.Some? ==> r.value.photo.value == j.fields["photo"].s)
  {
    if !j.JObj? then None
    else
      var f := j.fields;
      if !IsStrField(f, "zagolovok") || !IsStrField(f, "opisanie") then None
      else if "photo" !in f || f["photo"].JNull? then Some(SlideData(f["zagolovok"].s, f["opisanie"].s))
      else if f["photo"].JStr? then Some(SlideData(f["zagolovok"].s, f["opisanie"].s, Some(f["photo"].s)))
      else None
  }

  /** `List[SlideData]`: the list is accepted iff every element is, and the
      records keep the order of the elements. */
  function ValidateSlides(items: seq<Json>): (r: Option<seq<SlideData>>)
    ensures r.Some? <==> forall i :: 0 <= i < |items| ==> ValidateSlide(items[i]).Some?
    ensures r.Some? ==> |r.value| == |items|
    ensures r.Some? ==> forall i :: 0 <= i < |items| ==> Some(r.value[i]) == ValidateSlide(items[i])
  {
    if |items| == 0 then Some([])
    else
      match ValidateSlides(items[..|items| - 1])
      case None => None
      case Some(init) =>
        match ValidateSlide(items[|items| - 1])
        case None => None
        case Some(last) => Some(init + [last])
  }

  /** `PresentationRequest(**request_data)`: `slides` and `slide_count` are
      mandatory, `output_path` defaults to "output.pptx". */
  function ValidatePresentationRequest(j: Json): (r: Option<PresentationRequest>)
    ensures r.Some? <==>
              && j.JObj?
              && "slides" in j.fields && j.fields["slides"].JArr?
              && ValidateSlides(j.fields["slides"].items).Some?
              && IsIntField(j.fields, "slide_count")
              && OptionalStrOk(j.fields, "output_path")
    ensures r.Some? ==> Some(r.value.slides) == ValidateSlides(j.fields["slides"].items)
    ensures r.Some? ==>
              && |r.value.slides| == |j.fields["slides"].items|
              && r.value.slideCount == j.fields["slide_count"].i
              && r.value.outputPath == (if "output_path" in j.fields then j.fields["output_path"].s
                                        else DefaultOutputPath)
  {
    if !j.JObj? then None
    else
      var f := j.fields;
      if "slides" !in f || !f["slides"].JArr? || !IsIntField(f, "slide_count") || !OptionalStrOk(f, "output_path")
      then None
      else
        match ValidateSlides(f["slides"].items)
        case None => None
        case Some(slides) =>
          if "output_path" in f then Some(PresentationRequest(slides, f["slide_count"].i, f["output_path"].s))
          else Some(PresentationRequest(slides, f["slide_count"].i))
  }

  /** `GenerateRequest(**data)`: `topic` and `slide_count` are mandatory;
      `output_path` defaults to "output.pptx" and `template_mode` to false. */
  function ValidateGenerateRequest(j: Json): (r: Option<GenerateRequest>)
    ensures r.Some? <==>
              && j.JObj?
              && IsStrField(j.fields, "topic")
              && IsIntField(j.fields, "slide_count")
              && OptionalStrOk(j.fields, "output_path")
              && ("template_mode" !in j.fields || j.fields["template_mode"].JBool?)
    ensures r.Some? ==>
              && r.value.topic == j.fields["topic"].s
              && r.value.slideCount == j.fields["slide_count"].i
              && r.value.outputPath == (if "output_path" in j.fields then j.fields["output_path"].s
                                        else DefaultOutputPath)
              && r.value.templateMode == ("template_mode" in j.fields && j.fields["template_mode"].b)
  {
    if !j.JObj? then None
    else
      var f := j.fields;
      if !IsStrField(f, "topic") || !IsIntField(f, "slide_count") || !OptionalStrOk(f, "output_path")
         || ("template_mode" in f && !f["template_mode"].JBool?)
      then None
      else
        var path := if "output_path" in f then f["output_path"].s else DefaultOutputPath;
        var mode := if "template_mode" in f then f["template_mode"].b else false;
        Some(GenerateRequest(f["topic"].s, f["slide_count"].i, path, mode))
  }

  /** The record defaults: an omitted photo is none, an omitted output path
      is "output.pptx" and an omitted template flag is false. */
  lemma RecordDefaults(title: string, text: string, slides: seq<SlideData>, topic: string, n: int)
    ensures SlideData(title, text).photo == None
    ensures PresentationRequest(slides, n).outputPath == "output.pptx"
    ensures GenerateRequest(topic, n).outputPath == "output.pptx"
    ensures !GenerateRequest(topic, n).templateMode
  {
  }

  /** Every field without a default is mandatory: removing it makes
      validation fail whatever else the object holds. */
  lemma MandatoryFields(fields: map<string, Json>)
    ensures ValidateSlide(JObj(fields - {"zagolovok"})).None?
    ensures ValidateSlide(JObj(fields - {"opisanie"})).None?
    ensures ValidatePresentationRequest(JObj(fields - {"slides"})).None?
    ensures ValidatePresentationRequest(JObj(fields - {"slide_count"})).None?
    ensures ValidateGenerateRequest(JObj(fields - {"topic"})).None?
    ensures ValidateGenerateRequest(JObj(fields - {"slide_count"})).None?
  {
  }
}
