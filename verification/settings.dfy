/** The settings page: the list of global variables the user edits through
    the add/edit dialog, and the decision taken on return from the Notion
    authorisation page. */
module Settings {
  import opened Wrappers
  import opened Text
  import opened Types

  /** The number of entries with the given key. */
  function Count(vs: seq<GlobalVariable>, key: string): (n: nat)
    ensures n <= |vs|
    ensures n == 0 <==> forall i :: 0 <= i < |vs| ==> vs[i].key != key
  {
    if vs == [] then 0 else (if vs[0].key == key then 1 else 0) + Count(vs[1..], key)
  }

  lemma {:induction false} CountConcat(a: seq<GlobalVariable>, b: seq<GlobalVariable>, key: string)
    ensures Count(a + b, key) == Count(a, key) + Count(b, key)
  {
    if a == [] {
      assert a + b == b;
    } else {
      assert (a + b)[1..] == a[1..] + b;
      CountConcat(a[1..], b, key);
    }
  }

  /** Adding never checks for the key: an entry whose key is already in the
      list is appended all the same, so the key is now there once more. */
  lemma AddKeepsDuplicates(vs: seq<GlobalVariable>, v: GlobalVariable)
    ensures Count(vs + [v], v.key) == Count(vs, v.key) + 1
  {
    CountConcat(vs, [v], v.key);
    assert [v][1..] == [];
  }

  /** The `map` of `handleUpdateVariable`: every entry with the edited key
      becomes the new pair, every other entry stays as it was. */
  function Replaced(vs: seq<GlobalVariable>, oldKey: string, nv: GlobalVariable): (r: seq<GlobalVariable>)
    ensures |r| == |vs|
    ensures forall i :: 0 <= i < |vs| && vs[i].key == oldKey ==> r[i] == nv
    ensures forall i :: 0 <= i < |vs| && vs[i].key != oldKey ==> r[i] == vs[i]
  {
    seq(|vs|, i requires 0 <= i < |vs| => if vs[i].key == oldKey then nv else vs[i])
  }

  /** Replacing a key that is not in the list changes nothing. */
  lemma ReplaceAbsentIsNoOp(vs: seq<GlobalVariable>, oldKey: string, nv: GlobalVariable)
    requires Count(vs, oldKey) == 0
    ensures Replaced(vs, oldKey, nv) == vs
  {
  }

  /** After renaming, no entry keeps the old key, and the new key is there
      once for each entry renamed plus those it already had. */
  lemma {:induction false} ReplaceCounts(vs: seq<GlobalVariable>, oldKey: string, nv: GlobalVariable)
    requires nv.key != oldKey
    ensures Count(Replaced(vs, oldKey, nv), oldKey) == 0
    ensures Count(Replaced(vs, oldKey, nv), nv.key) == Count(vs, nv.key) + Count(vs, oldKey)
  {
    if vs != [] {
      ReplaceCounts(vs[1..], oldKey, nv);
      assert Replaced(vs, oldKey, nv)[1..] == Replaced(vs[1..], oldKey, nv);
    }
  }

  /** The `filter` of `handleDeleteVariable`. */
  function Removed(vs: seq<GlobalVariable>, key: string): (r: seq<GlobalVariable>)
    ensures |r| <= |vs|
    ensures forall x :: x in r <==> x in vs && x.key != key
  {
    if vs == [] then []
    else if vs[0].key == key then Removed(vs[1..], key)
    else [vs[0]] + Removed(vs[1..], key)
  }

  /** Deleting works entry by entry: on a concatenation it deletes from each
      part, so the remaining entries keep their relative order. */
  lemma {:induction false} RemovedConcat(a: seq<GlobalVariable>, b: seq<GlobalVariable>, key: string)
    ensures Removed(a + b, key) == Removed(a, key) + Removed(b, key)
  {
    if a == [] {
      assert a + b == b;
    } else {
      assert (a + b)[1..] == a[1..] + b;
      RemovedConcat(a[1..], b, key);
    }
  }

  /** Exactly the entries with the key go. */
  lemma {:induction false} RemovedLength(vs: seq<GlobalVariable>, key: string)
    ensures |Removed(vs, key)| == |vs| - Count(vs, key)
  {
    if vs != [] {
      RemovedLength(vs[1..], key);
    }
  }

  /** Deleting an absent key is a no-op. */
  lemma {:induction false} RemoveAbsentIsNoOp(vs: seq<GlobalVariable>, key: string)
    requires Count(vs, key) == 0
    ensures Removed(vs, key) == vs
  {
    if vs != [] {
      RemoveAbsentIsNoOp(vs[1..], key);
    }
  }

  /** Deleting the key of an entry just added takes the list back to what
      deleting it would have made of the list before. */
  lemma AddThenDelete(vs: seq<GlobalVariable>, v: GlobalVariable)
    ensures Removed(vs + [v], v.key) == Removed(vs, v.key)
  {
    RemovedConcat(vs, [v], v.key);
    assert Removed([v], v.key) == Removed([v][1..], v.key);
    assert [v][1..] == [];
  }

  /** The dialog's submit button: both inputs must be non-blank. */
  predicate SubmitDisabled(keyInput: string, valueInput: string)
    ensures SubmitDisabled(keyInput, valueInput) <==> AllWhitespace(keyInput) || AllWhitespace(valueInput)
  {
    TrimEmptyIff(keyInput);
    TrimEmptyIff(valueInput);
    Trim(keyInput) == "" || Trim(valueInput) == ""
  }

  /** The state of the page. */
  class SettingsPage {
    var variables: seq<GlobalVariable>
    var editing: Option<GlobalVariable>
    var keyInput: string
    var valueInput: string
    var dialogOpen: bool

    constructor (stored: seq<GlobalVariable>)
      ensures variables == stored && editing == None
      ensures keyInput == "" && valueInput == "" && !dialogOpen
    {
      variables, editing := stored, None;
      keyInput, valueInput, dialogOpen := "", "", false;
    }

    /** `handleAddVariable`: with both inputs non-blank, the trimmed pair is
        appended, the inputs cleared and the dialog closed; otherwise
        nothing happens. */
    method AddVariable()
      modifies this
      ensures editing == old(editing)
      ensures !SubmitDisabled(old(keyInput), old(valueInput)) ==>
                variables == old(variables) + [GlobalVariable(Trim(old(keyInput)), Trim(old(valueInput)))] &&
                keyInput == "" && valueInput == "" && !dialogOpen
      ensures SubmitDisabled(old(keyInput), old(valueInput)) ==>
                variables == old(variables) && keyInput == old(keyInput) && valueInput == old(valueInput) &&
                dialogOpen == old(dialogOpen)
    {
      if Trim(keyInput) != "" && Trim(valueInput) != "" {
        var v := GlobalVariable(Trim(keyInput), Trim(valueInput));
        variables := variables + [v];
        keyInput := "";
        valueInput := "";
        dialogOpen := false;
      }
    }

    /** `handleEditVariable`: the dialog opens on the chosen entry. */
    method EditVariable(v: GlobalVariable)
      modifies this
      ensures variables == old(variables)
      ensures editing == Some(v) && keyInput == v.key && valueInput == v.value && dialogOpen
    {
      editing := Some(v);
      keyInput := v.key;
      valueInput := v.value;
      dialogOpen := true;
    }

    /** `handleUpdateVariable`: with an entry being edited and both inputs
        non-blank, every entry with the edited key becomes the trimmed pair
        and the dialog is reset and closed; otherwise nothing happens. */
    method UpdateVariable()
      modifies this
      ensures old(editing).Some? && !SubmitDisabled(old(keyInput), old(valueInput)) ==>
                variables == Replaced(old(variables), old(editing).value.key,
                                      GlobalVariable(Trim(old(keyInput)), Trim(old(valueInput)))) &&
                editing == None && keyInput == "" && valueInput == "" && !dialogOpen
      ensures !(old(editing).Some? && !SubmitDisabled(old(keyInput), old(valueInput))) ==>
                variables == old(variables) && editing == old(editing) &&
                keyInput == old(keyInput) && valueInput == old(valueInput) && dialogOpen == old(dialogOpen)
    {
      if editing.Some? && Trim(keyInput) != "" && Trim(valueInput) != "" {
        var nv := GlobalVariable(Trim(keyInput), Trim(valueInput));
        variables := Replaced(variables, editing.value.key, nv);
        editing := None;
        keyInput := "";
        valueInput := "";
        dialogOpen := false;
      }
    }

    /** The dialog's submit button: update while editing, add otherwise. */
    method Submit()
      modifies this
      ensures old(editing).None? && !SubmitDisabled(old(keyInput), old(valueInput)) ==>
                variables == old(variables) + [GlobalVariable(Trim(old(keyInput)), Trim(old(valueInput)))] &&
                |variables| == |old(variables)| + 1
      ensures old(editing).Some? && !SubmitDisabled(old(keyInput), old(valueInput)) ==>
                variables == Replaced(old(variables), old(editing).value.key,
                                      GlobalVariable(Trim(old(keyInput)), Trim(old(valueInput)))) &&
                |variables| == |old(variables)|
      ensures !SubmitDisabled(old(keyInput), old(valueInput)) ==>
                editing == None && keyInput == "" && valueInput == "" && !dialogOpen
      ensures SubmitDisabled(old(keyInput), old(valueInput)) ==>
                variables == old(variables) && editing == old(editing) &&
                keyInput == old(keyInput) && valueInput == old(valueInput) && dialogOpen == old(dialogOpen)
    {
      if editing.Some? {
        UpdateVariable();
      } else {
        AddVariable();
      }
    }

    /** `handleDeleteVariable`. */
    method DeleteVariable(key: string)
      modifies this`variables
      ensures variables == Removed(old(variables), key)
      ensures |variables| == |old(variables)| - Count(old(variables), key)
    {
      RemovedLength(variables, key);
      variables := Removed(variables, key);
    }
  }

  // ---------------------------------------------------------------------
  // Return from the Notion authorisation page

  datatype OAuthOutcome = Connected | ConnectionFailed(message: string) | NoAction

  const OAuthFailed: string := "OAuth failed"

  /** What the page does with the `connected`, `error` and `message` query
      parameters (`None` when absent): `connected=notion` is a success;
      otherwise a non-empty `error` is a failure, reported with `message`
      or, when that is missing or empty, `OAuth failed`; otherwise nothing
      happens. */
  function OAuthCallback(connected: Option<string>, error: Option<string>, message: Option<string>): (r: OAuthOutcome)
    ensures r == Connected <==> connected == Some("notion")
    ensures r.ConnectionFailed? <==> connected != Some("notion") && error.Some? && error.value != ""
    ensures r.ConnectionFailed? ==> r.message == (if message.Some? && message.value != "" then message.value else OAuthFailed)
    ensures r.ConnectionFailed? ==> r.message != ""
  {
    if connected == Some("notion") then Connected
    else if error.Some? && error.value != "" then
      ConnectionFailed(if message.Some? && message.value != "" then message.value else OAuthFailed)
    else NoAction
  }
}
