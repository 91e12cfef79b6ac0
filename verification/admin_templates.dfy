/** The administrator's template editor: the form state of the create/edit
    dialog, the JSON check on its content, the variables listed beside it
    and the request the save button sends. `parse` stands for `JSON.parse`:
    `None` when it throws. */
module AdminTemplates {
  import opened Wrappers
  import opened Json
  import opened Types
  import opened Placeholders

  const InvalidJson: string := "Invalid JSON format"

  /** What `parseVariables` returns for content whose parse result is
      `parsed`: nothing when the content is not JSON, otherwise every
      placeholder key of the tree, once, in first-occurrence order. */
  function VariableKeys(parsed: Option<Json>): (keys: seq<string>)
    ensures parsed.None? ==> keys == []
    ensures NoDuplicates(keys)
    ensures forall k :: k in keys <==> parsed.Some? && Mentions(parsed.value, k)
  {
    match parsed
    case None => []
    case Some(tree) =>
      DedupCharacterised(Keys(tree));
      forall k ensures k in Keys(tree) <==> Mentions(tree, k) {
        KeysIff(tree, k);
      }
      Dedup(Keys(tree))
  }

  /** The keys come in the order of their first occurrence in the walk. */
  lemma VariableKeysOrdered(tree: Json)
    ensures forall k :: k in VariableKeys(Some(tree)) <==> k in Keys(tree)
    ensures forall i, j :: 0 <= i < j < |VariableKeys(Some(tree))| ==>
              IndexOf(Keys(tree), VariableKeys(Some(tree))[i]) < IndexOf(Keys(tree), VariableKeys(Some(tree))[j])
  {
    DedupCharacterised(Keys(tree));
  }

  /** `parseVariables`. */
  method ParseVariables(content: string, parse: string -> Option<Json>) returns (keys: seq<string>)
    ensures keys == VariableKeys(parse(content))
  {
    match parse(content)
    case None =>
      keys := [];
    case Some(tree) =>
      keys := CollectKeys(tree);
  }

  /** An entry of the variable list shown beside the editor. */
  datatype AdminVariable = AdminVariable(key: string, varType: string, required: bool)

  function Records(keys: seq<string>): (r: seq<AdminVariable>)
    ensures |r| == |keys|
    ensures forall i :: 0 <= i < |r| ==> r[i] == AdminVariable(keys[i], "string", true)
  {
    seq(|keys|, i requires 0 <= i < |keys| => AdminVariable(keys[i], "string", true))
  }

  /** `parsedVariables`: no entries for empty content, otherwise one
      required string entry per key of the parsed content. */
  method ParsedVariables(content: string, parse: string -> Option<Json>) returns (vars: seq<AdminVariable>)
    ensures content == "" ==> vars == []
    ensures content != "" ==> vars == Records(VariableKeys(parse(content)))
  {
    if content == "" {
      return [];
    }
    var keys := ParseVariables(content, parse);
    vars := [];
    var i := 0;
    while i < |keys|
      invariant 0 <= i <= |keys|
      invariant vars == Records(keys[..i])
    {
      vars := vars + [AdminVariable(keys[i], "string", true)];
      i := i + 1;
    }
    assert keys[..i] == keys;
  }

  /** The list beside the editor and the keys sent on save agree: same
      keys, same order, each entry a required string. (`JSON.parse` throws
      on the empty string, so empty content lists nothing either way.) */
  lemma ParsedVariablesMatchKeys(content: string, parse: string -> Option<Json>)
    requires parse("").None?
    ensures var records := if content == "" then [] else Records(VariableKeys(parse(content)));
            |records| == |VariableKeys(parse(content))| &&
            forall i :: 0 <= i < |records| ==>
              records[i].key == VariableKeys(parse(content))[i] && records[i].varType == "string" && records[i].required
  {
  }

  /** The `content` the backend expects: the raw prompt and its keys. */
  datatype PromptContent = PromptContent(prompt: string, variables: seq<string>)

  datatype Payload = Payload(title: string, description: string, category: string, content: PromptContent)

  datatype SaveRequest = Create(payload: Payload) | Update(id: string, payload: Payload)

  /** The request `handleSubmit` sends: an update of the template being
      edited when there is one, a creation otherwise. */
  function SaveRequestFor(editing: Option<Template>, payload: Payload): (r: SaveRequest)
    ensures r.payload == payload
    ensures r.Update? <==> editing.Some?
    ensures r.Update? ==> r.id == editing.value.id
  {
    match editing
    case Some(t) => Update(t.id, payload)
    case None => Create(payload)
  }

  /** The dialog's state. */
  class TemplateForm {
    var title: string
    var description: string
    var category: string
    var content: string
    var contentError: Option<string>
    var editing: Option<Template>
    var dialogOpen: bool

    /** The only error the form ever shows is the JSON one. */
    predicate Valid()
      reads this
    {
      contentError == None || contentError == Some(InvalidJson)
    }

    constructor ()
      ensures Valid()
      ensures title == "" && description == "" && category == "" && content == ""
      ensures contentError == None && editing == None && !dialogOpen
    {
      title, description, category, content := "", "", "", "";
      contentError, editing, dialogOpen := None, None, false;
    }

    /** `validateContent`: true, and the error cleared, exactly when the
        text parses. */
    method ValidateContent(text: string, parse: string -> Option<Json>) returns (ok: bool)
      modifies this`contentError
      ensures Valid()
      ensures ok <==> parse(text).Some?
      ensures contentError == if ok then None else Some(InvalidJson)
    {
      if parse(text).Some? {
        contentError := None;
        ok := true;
      } else {
        contentError := Some(InvalidJson);
        ok := false;
      }
    }

    /** `handleContentChange`: the new text is stored; empty text clears
        the error without being checked, other text is checked. */
    method ContentChange(text: string, parse: string -> Option<Json>)
      modifies this`content, this`contentError
      ensures Valid()
      ensures content == text
      ensures contentError == if text == "" || parse(text).Some? then None else Some(InvalidJson)
    {
      content := text;
      if text != "" {
        var _ := ValidateContent(text, parse);
      } else {
        contentError := None;
      }
    }

    /** `resetForm`. */
    method ResetForm()
      modifies this`title, this`description, this`category, this`content, this`contentError, this`editing
      ensures Valid()
      ensures title == "" && description == "" && category == "" && content == ""
      ensures contentError == None && editing == None
    {
      title, description, category, content := "", "", "", "";
      contentError, editing := None, None;
    }

    /** `handleOpenForm`: editing a template copies its fields, showing
        object content pretty-printed; otherwise the form is reset. Either
        way the dialog opens. Copying a template leaves `contentError` as it
        was. */
    method OpenForm(template: Option<Template>)
      requires Valid()
      modifies this
      ensures Valid()
      ensures dialogOpen
      ensures template.Some? ==>
                var t := template.value;
                editing == template && title == t.title && description == t.description &&
                category == t.category && content == ContentText(t.content) &&
                contentError == old(contentError)
      ensures template.None? ==>
                editing == None && title == "" && description == "" && category == "" && content == "" &&
                contentError == None
    {
      if template.Some? {
        var t := template.value;
        editing := template;
        title, description, category, content := t.title, t.description, t.category, ContentText(t.content);
      } else {
        ResetForm();
      }
      dialogOpen := true;
    }

    /** What a successful create or update does to the dialog: it closes
        and the form is reset. */
    method SaveSucceeded()
      modifies this
      ensures Valid()
      ensures !dialogOpen
      ensures title == "" && description == "" && category == "" && content == ""
      ensures contentError == None && editing == None
    {
      dialogOpen := false;
      ResetForm();
    }

    /** `handleSubmit`: nothing is sent, and the error is set, when the
        content does not parse; otherwise the form fields go out with the
        content replaced by the raw prompt and its keys. */
    method Submit(parse: string -> Option<Json>) returns (request: Option<SaveRequest>)
      modifies this`contentError
      ensures Valid()
      ensures request.None? <==> parse(content).None?
      ensures contentError == if request.None? then Some(InvalidJson) else None
      ensures request.Some? ==>
                request.value == SaveRequestFor(editing,
                  Payload(title, description, category, PromptContent(content, VariableKeys(parse(content)))))
    {
      var ok := ValidateContent(content, parse);
      if !ok {
        return None;
      }
      var keys := ParseVariables(content, parse);
      request := Some(SaveRequestFor(editing, Payload(title, description, category, PromptContent(content, keys))));
    }

    /** The save button's `disabled`: an empty field, a (truthy) content
        error or a pending save. */
    predicate SaveDisabled(pending: bool)
      reads this
      ensures pending ==> SaveDisabled(pending)
      ensures title == "" || description == "" || category == "" || content == "" ==> SaveDisabled(pending)
    {
      title == "" || description == "" || category == "" || content == "" ||
      (contentError.Some? && contentError.value != "") || pending
    }
  }

  /** In a well-formed form the button is enabled exactly when all four
      fields are filled, no error is shown and nothing is pending. */
  lemma SaveEnabledIff(f: TemplateForm, pending: bool)
    requires f.Valid()
    ensures !f.SaveDisabled(pending) <==>
            f.title != "" && f.description != "" && f.category != "" && f.content != "" &&
            f.contentError.None? && !pending
  {
  }
}
