/** The add-product form: a record of seven text fields (and whatever extra
    keys an AI reply spreads into it), with single-field edits, the reset
    after a successful submit, the image-size check, and the guarded merge
    of an AI-filled object. */
module ProductForm {
  import opened Wrappers
  import opened Records
  import opened Json

  /** `formData`: property name to value. */
  type Form = map<string, Json>

  const Fields: set<string> := {"name", "imgUrl", "price", "quantity", "costprice", "description", "category"}

  /** 2 MiB: the largest image file the form accepts. */
  const MaxImageBytes: nat := 2 * 1024 * 1024

  const Added := "Product added!"
  const AddFailed := "Failed to add product."
  const ImageTooLarge := "Image too large. Max 2MB allowed."
  const InvalidAiFormat := "Invalid AI response format."
  const AiFilled := "Form filled with AI!"
  const AiErrorPrefix := "AI fill error: "
  /** The message the browser gives when the reply body is `null` and its
      `output` is read (as worded by V8). */
  const NullOutputRead := "Cannot read properties of null (reading 'output')"

  /** The form after an action and the notice shown, if any. */
  datatype FormStep = FormStep(form: Form, notice: Option<Notice>)

  /** The empty form. */
  function Initial(): (f: Form)
    ensures f.Keys == Fields
    ensures forall k :: k in f ==> f[k] == JString("")
  {
    map["name" := JString(""), "imgUrl" := JString(""), "price" := JString(""),
        "quantity" := JString(""), "costprice" := JString(""),
        "description" := JString(""), "category" := JString("")]
  }

  /** An input's change event sets the named field to the input's text. */
  function HandleChange(f: Form, name: string, value: string): (r: Form)
    ensures r.Keys == f.Keys + {name}
    ensures r[name] == JString(value)
    ensures forall k :: k in f && k != name ==> r[k] == f[k]
  {
    f[name := JString(value)]
  }

  /** Submitting posts the whole form; success resets it to the empty form,
      failure leaves it as it was. */
  function Submit(f: Form, reply: Result<()>): (r: FormStep)
    ensures reply.Ok? ==> r.form.Keys == Fields && forall k :: k in r.form ==> r.form[k] == JString("")
    ensures reply.Ok? ==> r.notice == Some(Success(Added))
    ensures reply.Err? ==> r.form == f && r.notice == Some(Failure(AddFailed))
  {
    match reply
    case Ok(_) => FormStep(Initial(), Some(Success(Added)))
    case Err => FormStep(f, Some(Failure(AddFailed)))
  }

  /** Choosing an image file of `file` bytes (`None`: the chooser was
      cancelled); `dataUrl` is what reading the file as a data URL yields. */
  function PickImage(f: Form, file: Option<nat>, dataUrl: string): (r: FormStep)
    ensures file.Some? && file.value > MaxImageBytes ==>
      r.form == f && r.notice == Some(Failure(ImageTooLarge))
    ensures file.Some? && file.value <= MaxImageBytes ==>
      && r.form.Keys == f.Keys + {"imgUrl"}
      && r.form["imgUrl"] == JString(dataUrl)
      && (forall k :: k in f && k != "imgUrl" ==> r.form[k] == f[k])
      && r.notice == None
    ensures file.None? ==> r == FormStep(f, None)
  {
    match file
    case Some(size) =>
      if size > MaxImageBytes then FormStep(f, Some(Failure(ImageTooLarge)))
      else FormStep(f["imgUrl" := JString(dataUrl)], None)
    case None => FormStep(f, None)
  }

  /** What the AI fill request delivered: a thrown error with its message,
      or a parsed JSON body. */
  datatype AiReply = AiThrown(message: string) | AiReplied(data: Json)

  /** The `output` property of the reply body; `None` when reading it
      throws (the body is `null`). */
  function Output(data: Json): (out: Option<Json>)
    ensures out.None? <==> data.JNull? || data.JUndefined?
    ensures data.JObject? && "output" in data.fields ==> out == Some(data.fields["output"])
    ensures out.Some? && !(data.JObject? && "output" in data.fields) ==> out == Some(JUndefined)
  {
    match data
    case JNull => None
    case JUndefined => None
    case JObject(fields) => Some(if "output" in fields then fields["output"] else JUndefined)
    case _ => Some(JUndefined)
  }

  /** The reply passes the guard: its `output` is truthy and of type object. */
  predicate Merges(reply: AiReply) {
    reply.AiReplied? && Output(reply.data).Some?
    && Truthy(Output(reply.data).value) && TypeOf(Output(reply.data).value) == "object"
  }

  /** The previous form overlaid with the spread `output` when the reply
      passes the guard; otherwise the form is left alone and an error is
      shown. */
  function FillWithAI(f: Form, reply: AiReply): (r: FormStep)
    ensures !Merges(reply) ==> r.form == f && r.notice.Some? && r.notice.value.Failure?
    ensures Merges(reply) ==>
      var added := Spread(Output(reply.data).value);
      && r.form.Keys == f.Keys + added.Keys
      && (forall k :: k in added ==> r.form[k] == added[k])
      && (forall k :: k in f && k !in added ==> r.form[k] == f[k])
      && r.notice == Some(Success(AiFilled))
  {
    match reply
    case AiThrown(message) => FormStep(f, Some(Failure(AiErrorPrefix + message)))
    case AiReplied(data) =>
      match Output(data)
      case None => FormStep(f, Some(Failure(AiErrorPrefix + NullOutputRead)))
      case Some(out) =>
        if !Truthy(out) || TypeOf(out) != "object" then FormStep(f, Some(Failure(InvalidAiFormat)))
        else FormStep(f + Spread(out), Some(Success(AiFilled)))
  }

  /** The reply `{output: {}}` fills nothing in. */
  lemma MergeEmptyIsIdentity(f: Form)
    ensures FillWithAI(f, AiReplied(JObject(map["output" := JObject(map[])]))).form == f
  {
    var reply := AiReplied(JObject(map["output" := JObject(map[])]));
    assert Merges(reply);
    assert Spread(JObject(map[])) == map[];
  }

  /** Filling the form twice from the same reply is filling it once. */
  lemma MergeIdempotent(f: Form, reply: AiReply)
    ensures FillWithAI(FillWithAI(f, reply).form, reply).form == FillWithAI(f, reply).form
  {
    if Merges(reply) {
      var added := Spread(Output(reply.data).value);
      var once := FillWithAI(f, reply).form;
      var twice := FillWithAI(once, reply).form;
      assert twice.Keys == once.Keys;
      forall k | k in twice
        ensures twice[k] == once[k]
      {
      }
    }
  }

  /** An `output` that is a non-empty string is truthy but not an object:
      refused, form unchanged. */
  lemma StringOutputRefused(f: Form, s: string)
    requires s != ""
    ensures FillWithAI(f, AiReplied(JObject(map["output" := JString(s)]))) == FormStep(f, Some(Failure(InvalidAiFormat)))
  {
  }

  /** An array passes the guard, and spreading it adds its indices as keys:
      `["shoes"]` adds the key "0" beside the seven fields. */
  lemma ArrayOutputAddsIndexKeys()
    ensures var r := FillWithAI(Initial(), AiReplied(JObject(map["output" := JArray([JString("shoes")])])));
      && "0" in r.form && r.form["0"] == JString("shoes")
      && r.form.Keys == Fields + {"0"}
  {
    var out := JArray([JString("shoes")]);
    assert Merges(AiReplied(JObject(map["output" := out])));
    assert Decimal.Show(0) == "0";
    var added := Spread(out);
    assert added.Keys == {"0"} by {
      forall k | k in added
        ensures k == "0"
      {
      }
    }
  }

  /** A file of exactly 2 MiB is accepted; one byte more is refused. */
  lemma ImageLimitIsInclusive(f: Form, dataUrl: string)
    ensures PickImage(f, Some(2097152), dataUrl).form["imgUrl"] == JString(dataUrl)
    ensures PickImage(f, Some(2097153), dataUrl) == FormStep(f, Some(Failure(ImageTooLarge)))
  {
  }

  /** Every edit keeps the seven fields, and a successful submit after any
      edits gives the empty form back. */
  lemma EditsThenSubmit(f: Form, name: string, value: string)
    requires Fields <= f.Keys
    ensures Fields <= HandleChange(f, name, value).Keys
    ensures Submit(HandleChange(f, name, value), Ok(())).form == Initial()
  {
  }
}
