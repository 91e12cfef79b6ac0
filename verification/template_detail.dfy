/** The template detail page: the variables a template's placeholders
    define, the live preview that fills them in, the form-validity check and
    the export guards. */
module TemplateDetail {
  import opened Wrappers
  import opened Text
  import opened Json
  import opened Types
  import opened Placeholders

  datatype VarType = StringVar | NumberVar | SelectVar

  datatype ParsedVariable = ParsedVariable(
    key: string,
    varType: VarType,
    required: bool,
    description: string,
    options: Option<seq<string>>)

  // ---------------------------------------------------------------------
  // Type inference, by the lower-cased key

  /** Names that are always plain text fields. */
  predicate AlwaysTextName(lk: string) {
    lk == "language" || lk == "name" || lk == "title" || lk == "description" || lk == "code" || lk == "framework"
  }

  /** Names that make a drop-down. */
  predicate SelectName(lk: string) {
    Contains(lk, "tone") || Contains(lk, "style") || Contains(lk, "format")
  }

  /** Names that make a number field. */
  predicate NumberName(lk: string) {
    lk == "count" || lk == "number" || lk == "age"
    || EndsWith(lk, "_count") || EndsWith(lk, "_number") || EndsWith(lk, "_age")
    || StartsWith(lk, "count_") || StartsWith(lk, "number_") || StartsWith(lk, "age_")
  }

  /** The inferred type, stated by precedence: the fixed text names first,
      then the select words, then the number names, else text. */
  function TypeOf(key: string): VarType {
    var lk := Lower(key);
    if AlwaysTextName(lk) then StringVar
    else if SelectName(lk) then SelectVar
    else if NumberName(lk) then NumberVar
    else StringVar
  }

  /** The page's three successive checks, each overriding the one before:
      they give the precedence `TypeOf` states. */
  method InferType(key: string) returns (t: VarType)
    ensures t == TypeOf(key)
  {
    var lk := Lower(key);
    t := StringVar;
    if NumberName(lk) {
      t := NumberVar;
    }
    if SelectName(lk) {
      t := SelectVar;
    }
    if AlwaysTextName(lk) {
      t := StringVar;
    }
  }

  const ToneOptions: seq<string> := ["Professional", "Casual", "Friendly", "Formal", "Creative", "Technical"]
  const StyleOptions: seq<string> := ["Concise", "Detailed", "Bullet points", "Narrative", "Step-by-step"]
  const FormatOptions: seq<string> := ["Email", "Report", "Blog post", "Social media", "Documentation"]
  const AudienceOptions: seq<string> := ["Beginners", "Intermediate", "Advanced", "General", "Technical"]
  const DefaultOptions: seq<string> := ["Option 1", "Option 2", "Option 3"]

  /** `generateOptions`: the list of the first of tone, style, format and
      audience that the lower-cased name contains, else three generic options. */
  function GenerateOptions(name: string): (r: seq<string>)
    ensures r != []
    ensures Contains(Lower(name), "tone") ==> r == ToneOptions
    ensures r == DefaultOptions <==>
            !Contains(Lower(name), "tone") && !Contains(Lower(name), "style") &&
            !Contains(Lower(name), "format") && !Contains(Lower(name), "audience")
  {
    var ln := Lower(name);
    if Contains(ln, "tone") then ToneOptions
    else if Contains(ln, "style") then StyleOptions
    else if Contains(ln, "format") then FormatOptions
    else if Contains(ln, "audience") then AudienceOptions
    else DefaultOptions
  }

  /** A drop-down always offers the tone, style or format list: only those
      three words make a variable a select, so the audience list and the
      generic options are never shown. */
  lemma SelectOptionsFromName(key: string)
    requires TypeOf(key) == SelectVar
    ensures GenerateOptions(key) in {ToneOptions, StyleOptions, FormatOptions}
  {
  }

  // ---------------------------------------------------------------------
  // Description: `key.replace(/_/g, ' ').replace(/\b\w/g, l => l.toUpperCase())`

  /** `key.replace(/_/g, ' ')`. */
  function Spaced(key: string): (r: string)
    ensures |r| == |key|
    ensures forall i :: 0 <= i < |key| ==> r[i] == if key[i] == '_' then ' ' else key[i]
  {
    seq(|key|, i requires 0 <= i < |key| => if key[i] == '_' then ' ' else key[i])
  }

  /** `\b\w` matches at `i`: a word character (`\w`) with no word character
      before it. */
  predicate WordStart(s: string, i: int)
    requires 0 <= i < |s|
  {
    IsIdentChar(s[i]) && (i == 0 || !IsIdentChar(s[i - 1]))
  }

  /** Upper-cases each word character that starts a word. */
  function CapitalizeWords(s: string): (r: string)
    ensures |r| == |s|
    ensures forall i :: 0 <= i < |s| ==> r[i] == if WordStart(s, i) then UpperChar(s[i]) else s[i]
  {
    seq(|s|, i requires 0 <= i < |s| => if WordStart(s, i) then UpperChar(s[i]) else s[i])
  }

  lemma CaseFold(c: char)
    ensures LowerChar(UpperChar(c)) == LowerChar(c)
    ensures UpperChar(c) == ' ' <==> c == ' '
  {
  }

  /** The label shown for a variable: the key with its underscores turned
      into spaces and the first character of every word upper-cased; case
      aside, nothing else changes. */
  function Describe(key: string): (r: string)
    ensures |r| == |key|
    ensures forall i :: 0 <= i < |r| ==>
              r[i] == if key[i] == '_' then ' '
                      else if WordStart(Spaced(key), i) then UpperChar(key[i])
                      else key[i]
    ensures forall i :: 0 <= i < |r| ==> (r[i] == ' ' <==> key[i] == '_' || key[i] == ' ')
    ensures forall i :: 0 <= i < |r| && key[i] != '_' ==> LowerChar(r[i]) == LowerChar(key[i])
  {
    var sp := Spaced(key);
    var r := CapitalizeWords(sp);
    forall i | 0 <= i < |r|
      ensures r[i] == if key[i] == '_' then ' ' else if WordStart(sp, i) then UpperChar(key[i]) else key[i]
      ensures (r[i] == ' ' <==> key[i] == '_' || key[i] == ' ')
      ensures key[i] != '_' ==> LowerChar(r[i]) == LowerChar(key[i])
    {
      CaseFold(sp[i]);
    }
    r
  }

  /** For a placeholder key, the label upper-cases exactly the first
      character and each character that follows an underscore, and keeps
      every other character. */
  lemma DescribeKey(key: string)
    requires IsKey(key)
    ensures forall i :: 0 <= i < |key| && key[i] == '_' ==> Describe(key)[i] == ' '
    ensures forall i :: 0 <= i < |key| && key[i] != '_' ==>
              Describe(key)[i] == if i == 0 || key[i - 1] == '_' then UpperChar(key[i]) else key[i]
  {
    var sp := Spaced(key);
    forall i | 0 <= i < |key| && key[i] != '_'
      ensures Describe(key)[i] == if i == 0 || key[i - 1] == '_' then UpperChar(key[i]) else key[i]
    {
      assert IsIdentChar(key[i]) && sp[i] == key[i];
      if i > 0 {
        assert IsIdentChar(key[i - 1]);
        assert sp[i - 1] == if key[i - 1] == '_' then ' ' else key[i - 1];
      }
      assert WordStart(sp, i) <==> i == 0 || key[i - 1] == '_';
    }
  }

  // ---------------------------------------------------------------------
  // Parsed variables

  /** The record pushed for a newly seen key. */
  function Variable(key: string): ParsedVariable {
    var t := TypeOf(key);
    ParsedVariable(key, t, true, Describe(key), if t == SelectVar then Some(GenerateOptions(key)) else None)
  }

  /** `!template?.content` is false: a template is loaded and its content is
      truthy. */
  predicate HasContent(c: Option<TemplateContent>)
    ensures HasContent(c) ==> c.Some?
    ensures c.Some? && c.value.Text? ==> (HasContent(c) <==> c.value.raw != "")
  {
    c.Some? &&
    match c.value
    case Text(raw, _) => raw != ""
    case Tree(v, _) => Truthy(v)
  }

  /** Where the walk starts: the parsed string, the string itself as a single
      leaf when it is not JSON, or the value as received. */
  function Root(c: TemplateContent): (v: Json)
    ensures c.Text? && c.parsed.Some? ==> v == c.parsed.value
    ensures c.Text? && c.parsed.None? ==> v == JString(c.raw)
    ensures c.Tree? ==> v == c.value
  {
    match c
    case Text(raw, parsed) => if parsed.Some? then parsed.value else JString(raw)
    case Tree(v, _) => v
  }

  /** The keys of `parsedVariables`, in order. */
  function ContentKeys(c: Option<TemplateContent>): (keys: seq<string>)
    ensures forall i :: 0 <= i < |keys| ==> IsKey(keys[i])
  {
    if HasContent(c) then
      var ks := Keys(Root(c.value));
      DedupCharacterised(ks);
      forall k | k in ks ensures IsKey(k) {
        KeysIff(Root(c.value), k);
        MentionedIsKey(Root(c.value), k);
      }
      Dedup(ks)
    else []
  }

  /** The variables of `parsedVariables`. */
  function TemplateVariables(c: Option<TemplateContent>): (vars: seq<ParsedVariable>)
    ensures |vars| == |ContentKeys(c)|
    ensures forall i :: 0 <= i < |vars| ==> vars[i] == Variable(ContentKeys(c)[i])
    ensures forall i :: 0 <= i < |vars| ==> vars[i].key == ContentKeys(c)[i] && IsKey(vars[i].key)
  {
    var keys := ContentKeys(c);
    seq(|keys|, i requires 0 <= i < |keys| => Variable(keys[i]))
  }

  /** `parsedVariables`: walks the content and builds, for each new key, a
      required variable of the inferred type, with options for a select. */
  method ParseVariables(content: Option<TemplateContent>) returns (vars: seq<ParsedVariable>)
    ensures vars == TemplateVariables(content)
  {
    if !HasContent(content) {
      return [];
    }
    var keys := CollectKeys(Root(content.value));
    vars := [];
    var i := 0;
    while i < |keys|
      invariant 0 <= i <= |keys|
      invariant |vars| == i
      invariant forall j :: 0 <= j < i ==> vars[j] == Variable(keys[j])
    {
      var key := keys[i];
      var t := InferType(key);
      var options := if t == SelectVar then Some(GenerateOptions(key)) else None;
      vars := vars + [ParsedVariable(key, t, true, Describe(key), options)];
      i := i + 1;
    }
  }

  /** Every variable is required, no key is listed twice, and a variable has
      options exactly when it is a select. */
  lemma VariablesWellFormed(c: Option<TemplateContent>)
    ensures forall i :: 0 <= i < |TemplateVariables(c)| ==>
              var v := TemplateVariables(c)[i];
              v.required && v.varType == TypeOf(v.key) && (v.options.Some? <==> v.varType == SelectVar)
    ensures forall i, j :: 0 <= i < j < |TemplateVariables(c)| ==>
              TemplateVariables(c)[i].key != TemplateVariables(c)[j].key
  {
    if HasContent(c) {
      DedupCharacterised(Keys(Root(c.value)));
    }
  }

  /** A key becomes a variable exactly when the content is present and some
      string leaf of it holds `{key}`; numbers, booleans and null add none. */
  lemma VariableIff(c: Option<TemplateContent>, key: string)
    ensures (exists i :: 0 <= i < |TemplateVariables(c)| && TemplateVariables(c)[i].key == key)
            <==> HasContent(c) && Mentions(Root(c.value), key)
  {
    var vars := TemplateVariables(c);
    if HasContent(c) {
      DedupCharacterised(Keys(Root(c.value)));
      KeysIff(Root(c.value), key);
      if key in ContentKeys(c) {
        var i :| 0 <= i < |ContentKeys(c)| && ContentKeys(c)[i] == key;
        assert vars[i].key == key;
      }
    }
  }

  /** Content that is a string but not JSON is scanned as one string: its
      variables are the `{key}` occurrences of the raw text. */
  lemma PlainTextScanned(raw: string, key: string)
    ensures key in ContentKeys(Some(Text(raw, None))) <==> exists p :: OccursAt(raw, p, key)
  {
    DedupCharacterised(Keys(JString(raw)));
    MatchesIff(raw, key);
  }

  // ---------------------------------------------------------------------
  // Live preview

  /** `s.replace(/\{key\}/g, rep)` with `rep` taken literally: every
      occurrence of `pat`, left to right and without overlap, becomes `rep`. */
  function ReplaceAll(s: string, pat: string, rep: string): string
    requires pat != []
    decreases |s|
  {
    if |s| < |pat| then s
    else if s[..|pat|] == pat then rep + ReplaceAll(s[|pat|..], pat, rep)
    else [s[0]] + ReplaceAll(s[1..], pat, rep)
  }

  /** Replacing a placeholder by itself changes nothing. */
  lemma {:induction false} ReplaceAllIdentity(s: string, pat: string)
    requires pat != []
    ensures ReplaceAll(s, pat, pat) == s
    decreases |s|
  {
    if |s| >= |pat| {
      if s[..|pat|] == pat {
        ReplaceAllIdentity(s[|pat|..], pat);
        assert s == pat + s[|pat|..];
      } else {
        ReplaceAllIdentity(s[1..], pat);
        assert s == [s[0]] + s[1..];
      }
    }
  }

  /** Text without the placeholder's opening character is left alone, and so
      is a leading stretch of it. */
  lemma {:induction false} ReplaceAllSkipsPlainPrefix(a: string, b: string, pat: string, rep: string)
    requires pat != [] && pat[0] !in a
    ensures ReplaceAll(a + b, pat, rep) == a + ReplaceAll(b, pat, rep)
    decreases |a|
  {
    if a != [] {
      var s := a + b;
      assert s[0] == a[0] && s[1..] == a[1..] + b;
      assert a[0] in a;
      assert pat[0] !in a[1..];
      ReplaceAllSkipsPlainPrefix(a[1..], b, pat, rep);
      if |s| < |pat| {
        assert ReplaceAll(b, pat, rep) == b;
        assert ReplaceAll(s, pat, rep) == s;
      } else {
        assert s[..|pat|][0] == a[0] != pat[0];
        calc {
          ReplaceAll(s, pat, rep);
          [a[0]] + ReplaceAll(a[1..] + b, pat, rep);
          [a[0]] + (a[1..] + ReplaceAll(b, pat, rep));
          { assert a == [a[0]] + a[1..]; }
          a + ReplaceAll(b, pat, rep);
        }
      }
    } else {
      assert a + b == b;
    }
  }

  /** What `{key}` becomes: the form value when it is non-empty, otherwise
      the placeholder itself (`formData[key] || "{key}"`). */
  function FillValue(form: map<string, string>, key: string): string {
    if key in form && form[key] != "" then form[key] else Token(key)
  }

  /** The text after substituting the variables one after the other, in list
      order. */
  function Substituted(text: string, vars: seq<ParsedVariable>, form: map<string, string>): string
    decreases |vars|
  {
    if vars == [] then text
    else
      var key := vars[|vars| - 1].key;
      ReplaceAll(Substituted(text, vars[..|vars| - 1], form), Token(key), FillValue(form, key))
  }

  /** Every variable's key is a placeholder key, as every parsed key is. */
  predicate KeysAreIdentifiers(vars: seq<ParsedVariable>) {
    forall i :: 0 <= i < |vars| ==> IsKey(vars[i].key)
  }

  /** `livePreview`: empty without content, the content itself without
      variables, else the content with each variable substituted in turn. */
  method LivePreview(content: Option<TemplateContent>, vars: seq<ParsedVariable>, form: map<string, string>)
    returns (preview: string)
    requires KeysAreIdentifiers(vars)
    ensures !HasContent(content) ==> preview == ""
    ensures HasContent(content) ==> preview == Substituted(ContentText(content.value), vars, form)
  {
    if !HasContent(content) {
      return "";
    }
    var text := ContentText(content.value);
    if |vars| == 0 {
      return text;
    }
    preview := ReplaceEach(text, vars, form);
  }

  /** The `forEach` of `livePreview`: one global replacement per variable,
      in list order, of its placeholder by its value or by itself. */
  method ReplaceEach(text: string, vars: seq<ParsedVariable>, form: map<string, string>)
    returns (preview: string)
    requires KeysAreIdentifiers(vars)
    ensures preview == Substituted(text, vars, form)
  {
    preview := text;
    var i := 0;
    while i < |vars|
      invariant 0 <= i <= |vars|
      invariant preview == Substituted(text, vars[..i], form)
    {
      var key := vars[i].key;
      assert vars[..i + 1][..i] == vars[..i] && vars[..i + 1][i] == vars[i];
      assert Substituted(text, vars[..i + 1], form) ==
             ReplaceAll(Substituted(text, vars[..i], form), Token(key), FillValue(form, key));
      preview := ReplaceAll(preview, Token(key), FillValue(form, key));
      i := i + 1;
    }
    assert vars[..i] == vars;
  }

  /** While no variable has a value (as right after the form is reset), the
      preview is the content unchanged. */
  lemma {:induction false} UnfilledPreviewIsContent(text: string, vars: seq<ParsedVariable>, form: map<string, string>)
    requires forall i :: 0 <= i < |vars| ==> vars[i].key !in form || form[vars[i].key] == ""
    ensures Substituted(text, vars, form) == text
    decreases |vars|
  {
    if vars != [] {
      UnfilledPreviewIsContent(text, vars[..|vars| - 1], form);
      ReplaceAllIdentity(text, Token(vars[|vars| - 1].key));
    }
  }

  /** Inside a placeholder only the first character is `{` and only the
      last is `}`. */
  lemma TokenInner(k: string)
    requires IsKey(k)
    ensures UniqueHead(Token(k))
    ensures forall i :: 0 < i < |Token(k)| ==> Token(k)[i] != '{'
    ensures forall i :: 0 <= i < |Token(k)| - 1 ==> Token(k)[i] != '}'
  {
    var t := Token(k);
    forall i | 0 < i < |t| - 1
      ensures t[i] == k[i - 1]
    {
      assert t[1..|t| - 1][i - 1] == t[i];
    }
  }

  /** A pattern whose first character occurs nowhere else in it, as `{`
      in a placeholder: no two occurrences of it can overlap. */
  predicate UniqueHead(pat: string) {
    pat != [] && forall i :: 0 < i < |pat| ==> pat[i] != pat[0]
  }

  /** A placeholder is replaced wherever it stands: the text before it and
      the text after it are processed as if on their own. */
  lemma ReplaceAllSplit(a: string, k: string, rep: string, b: string)
    requires IsKey(k)
    ensures ReplaceAll(a + Token(k) + b, Token(k), rep) ==
            ReplaceAll(a, Token(k), rep) + rep + ReplaceAll(b, Token(k), rep)
  {
    TokenInner(k);
    SplitAt(a, Token(k), rep, b);
  }

  lemma {:induction false} SplitAt(a: string, pat: string, rep: string, b: string)
    requires UniqueHead(pat)
    ensures ReplaceAll(a + pat + b, pat, rep) == ReplaceAll(a, pat, rep) + rep + ReplaceAll(b, pat, rep)
    decreases |a|, 1
  {
    if a == [] {
      var s := a + pat + b;
      assert s == pat + b;
      assert s[..|pat|] == pat && s[|pat|..] == b;
    } else if |a| >= |pat| && a[..|pat|] == pat {
      SplitAfterMatch(a, pat, rep, b);
    } else {
      SplitAfterMiss(a, pat, rep, b);
    }
  }

  lemma {:induction false} SplitAfterMatch(a: string, pat: string, rep: string, b: string)
    requires UniqueHead(pat) && |a| >= |pat| && a[..|pat|] == pat
    ensures ReplaceAll(a + pat + b, pat, rep) == ReplaceAll(a, pat, rep) + rep + ReplaceAll(b, pat, rep)
    decreases |a|, 0
  {
    var s := a + pat + b;
    var a' := a[|pat|..];
    assert s[..|pat|] == pat;
    assert s[|pat|..] == a' + pat + b;
    assert ReplaceAll(s, pat, rep) == rep + ReplaceAll(a' + pat + b, pat, rep);
    assert ReplaceAll(a, pat, rep) == rep + ReplaceAll(a', pat, rep);
    SplitAt(a', pat, rep, b);
  }

  lemma {:induction false} SplitAfterMiss(a: string, pat: string, rep: string, b: string)
    requires UniqueHead(pat) && a != [] && !(|a| >= |pat| && a[..|pat|] == pat)
    ensures ReplaceAll(a + pat + b, pat, rep) == ReplaceAll(a, pat, rep) + rep + ReplaceAll(b, pat, rep)
    decreases |a|, 0
  {
    var s := a + pat + b;
    MissAtStart(a, pat, b);
    StepPastMiss(s, pat, rep);
    StepPastMiss(a, pat, rep);
    TailOfConcat(a, pat, b);
    SplitAt(a[1..], pat, rep, b);
    ConsAssoc(a[0], ReplaceAll(a[1..], pat, rep), rep, ReplaceAll(b, pat, rep));
  }

  lemma TailOfConcat(a: string, pat: string, b: string)
    requires a != []
    ensures (a + pat + b)[0] == a[0] && (a + pat + b)[1..] == a[1..] + pat + b
  {
  }

  lemma ConsAssoc(c: char, x: string, y: string, z: string)
    ensures [c] + (x + y + z) == ([c] + x) + y + z
  {
  }

  /** No occurrence starts at the beginning of `a + pat + b` unless one
      starts at the beginning of `a`. */
  lemma MissAtStart(a: string, pat: string, b: string)
    requires UniqueHead(pat) && a != [] && !(|a| >= |pat| && a[..|pat|] == pat)
    ensures !(|a + pat + b| >= |pat| && (a + pat + b)[..|pat|] == pat)
  {
    var s := a + pat + b;
    if |a| >= |pat| {
      assert s[..|pat|] == a[..|pat|];
    } else {
      assert s[..|pat|][|a|] == pat[0] != pat[|a|];
    }
  }

  /** Where no occurrence starts, the scan copies one character. */
  lemma StepPastMiss(a: string, pat: string, rep: string)
    requires pat != [] && a != [] && !(|a| >= |pat| && a[..|pat|] == pat)
    ensures ReplaceAll(a, pat, rep) == [a[0]] + ReplaceAll(a[1..], pat, rep)
  {
    if |a| < |pat| {
      assert ReplaceAll(a[1..], pat, rep) == a[1..];
      assert a == [a[0]] + a[1..];
    }
  }

  /** The placeholder of another key is left as it is. */
  lemma OtherTokenKept(other: string, b: string, k: string, rep: string)
    requires IsKey(k) && IsKey(other) && other != k
    ensures ReplaceAll(Token(other) + b, Token(k), rep) == Token(other) + ReplaceAll(b, Token(k), rep)
  {
    var pat := Token(k);
    var t := Token(other);
    var rest := other + ['}'];
    OtherTokenMiss(other, b, k);
    StepPastMiss(t + b, pat, rep);
    assert t == ['{'] + rest;
    assert (t + b)[0] == '{' && (t + b)[1..] == rest + b;
    assert '{' !in rest;
    ReplaceAllSkipsPlainPrefix(rest, b, pat, rep);
  }

  /** The placeholder of another key does not start with this one's. */
  lemma OtherTokenMiss(other: string, b: string, k: string)
    requires IsKey(k) && IsKey(other) && other != k
    ensures !(|Token(other) + b| >= |Token(k)| && (Token(other) + b)[..|Token(k)|] == Token(k))
  {
    var pat := Token(k);
    var t := Token(other);
    var s := t + b;
    TokenInner(k);
    TokenInner(other);
    if |s| >= |pat| {
      var j: int;
      if |other| < |k| {
        j := |other| + 1;
      } else if |other| > |k| {
        j := |k| + 1;
      } else {
        var i :| 0 <= i < |k| && k[i] != other[i];
        assert t[1..|t| - 1][i] == t[i + 1];
        assert pat[1..|pat| - 1][i] == pat[i + 1];
        j := i + 1;
      }
      assert s[..|pat|][j] != pat[j];
    }
  }

  /** A text cut into plain stretches and placeholders. */
  datatype Piece = Plain(text: string) | Hole(key: string)

  function PieceText(p: Piece): string {
    match p
    case Plain(t) => t
    case Hole(k) => Token(k)
  }

  function Join(ps: seq<Piece>): string {
    if ps == [] then [] else PieceText(ps[0]) + Join(ps[1..])
  }

  /** Every `{` of `t` is followed, inside `t`, by a character that cannot
      open a key (a quote, a space, a line break, another brace, ...), so no
      placeholder starts in `t`. Text printed from a JSON object has this
      shape wherever it is not a placeholder. */
  predicate NoTokenStart(t: string) {
    forall j :: 0 <= j < |t| && t[j] == '{' ==> j + 1 < |t| && !IsIdentChar(t[j + 1])
  }

  /** The plain stretches open no placeholder and the placeholders are keys. */
  predicate Tokenised(ps: seq<Piece>) {
    forall i :: 0 <= i < |ps| ==>
      (ps[i].Plain? ==> NoTokenStart(ps[i].text)) && (ps[i].Hole? ==> IsKey(ps[i].key))
  }

  /** A placeholder cannot start at the head of a stretch that opens none. */
  lemma NoTokenAtHead(s: string, a: string, k: string)
    requires IsKey(k) && a != [] && NoTokenStart(a) && |a| <= |s| && s[..|a|] == a
    ensures !(|s| >= |Token(k)| && s[..|Token(k)|] == Token(k))
  {
    var t := Token(k);
    if |s| >= |t| {
      if s[0] == '{' {
        assert s[1] == a[1] && t[1] == k[0];
        assert s[..|t|][1] != t[1];
      } else {
        assert s[..|t|][0] != t[0];
      }
    }
  }

  lemma NoTokenStartTail(a: string)
    requires a != [] && NoTokenStart(a)
    ensures NoTokenStart(a[1..])
  {
    forall j | 0 <= j < |a[1..]| && a[1..][j] == '{'
      ensures j + 1 < |a[1..]| && !IsIdentChar(a[1..][j + 1])
    {
      assert a[j + 1] == '{';
    }
  }

  lemma ConsSplit(a: string, b: string, c: string)
    requires a != []
    ensures (a + b)[0] == a[0] && (a + b)[1..] == a[1..] + b
    ensures [a[0]] + (a[1..] + c) == a + c
  {
    assert a == [a[0]] + a[1..];
  }

  /** A leading stretch that opens no placeholder is left alone. */
  lemma {:induction false} ReplaceAllSkipsText(a: string, b: string, k: string, rep: string)
    requires IsKey(k) && NoTokenStart(a)
    ensures ReplaceAll(a + b, Token(k), rep) == a + ReplaceAll(b, Token(k), rep)
    decreases |a|
  {
    if a != [] {
      var s := a + b;
      assert s[..|a|] == a;
      NoTokenAtHead(s, a, k);
      StepPastMiss(s, Token(k), rep);
      NoTokenStartTail(a);
      ReplaceAllSkipsText(a[1..], b, k, rep);
      ConsSplit(a, b, ReplaceAll(b, Token(k), rep));
    } else {
      assert a + b == b;
    }
  }

  /** Every placeholder of `k` turned into the plain text `rep`. */
  function FillHole(ps: seq<Piece>, k: string, rep: string): (r: seq<Piece>)
    ensures |r| == |ps|
    ensures forall i :: 0 <= i < |ps| ==> r[i] == if ps[i] == Hole(k) then Plain(rep) else ps[i]
  {
    seq(|ps|, i requires 0 <= i < |ps| => if ps[i] == Hole(k) then Plain(rep) else ps[i])
  }

  /** One replacement pass fills exactly the placeholders of its key. */
  lemma {:induction false} ReplaceAllPieces(ps: seq<Piece>, k: string, rep: string)
    requires Tokenised(ps) && IsKey(k)
    ensures ReplaceAll(Join(ps), Token(k), rep) == Join(FillHole(ps, k, rep))
    decreases |ps|
  {
    if ps != [] {
      var rest := ps[1..];
      var r := FillHole(ps, k, rep);
      assert r[1..] == FillHole(rest, k, rep);
      assert Join(r) == PieceText(r[0]) + Join(FillHole(rest, k, rep));
      ReplaceAllPieces(rest, k, rep);
      match ps[0]
      case Plain(t) =>
        ReplaceAllSkipsText(t, Join(rest), k, rep);
      case Hole(other) =>
        if other == k {
          ReplaceAllSplit([], k, rep, Join(rest));
          assert [] + Token(k) + Join(rest) == Join(ps);
        } else {
          OtherTokenKept(other, Join(rest), k, rep);
        }
    }
  }

  /** `key` is a variable with a non-empty form value. */
  predicate FilledKey(vars: seq<ParsedVariable>, form: map<string, string>, key: string) {
    (exists i :: 0 <= i < |vars| && vars[i].key == key) && key in form && form[key] != ""
  }

  /** The text the user means: every placeholder of a filled variable
      replaced by its value, every other placeholder left as it is. */
  function FillAll(ps: seq<Piece>, vars: seq<ParsedVariable>, form: map<string, string>): (r: seq<Piece>)
    ensures |r| == |ps|
    ensures forall i :: 0 <= i < |ps| ==>
              r[i] == if ps[i].Hole? && FilledKey(vars, form, ps[i].key) then Plain(form[ps[i].key]) else ps[i]
  {
    seq(|ps|, i requires 0 <= i < |ps| =>
      if ps[i].Hole? && FilledKey(vars, form, ps[i].key) then Plain(form[ps[i].key]) else ps[i])
  }

  /** Filling placeholders with values that open no placeholder keeps the
      text cut into plain stretches and placeholders. */
  lemma FillAllTokenised(ps: seq<Piece>, vars: seq<ParsedVariable>, form: map<string, string>)
    requires Tokenised(ps)
    requires forall i :: 0 <= i < |vars| && vars[i].key in form ==> NoTokenStart(form[vars[i].key])
    ensures Tokenised(FillAll(ps, vars, form))
  {
    var r := FillAll(ps, vars, form);
    forall i | 0 <= i < |r| && r[i].Plain?
      ensures NoTokenStart(r[i].text)
    {
      if ps[i].Hole? && FilledKey(vars, form, ps[i].key) {
        var j :| 0 <= j < |vars| && vars[j].key == ps[i].key;
      }
    }
  }

  /** One more variable fills its own placeholders, if it has a value, and
      leaves the rest as they were. */
  lemma FilledKeySnoc(vars: seq<ParsedVariable>, form: map<string, string>, key: string)
    requires vars != []
    ensures FilledKey(vars, form, key) <==>
            FilledKey(vars[..|vars| - 1], form, key) ||
            (key == vars[|vars| - 1].key && key in form && form[key] != "")
  {
    var init := vars[..|vars| - 1];
    if FilledKey(vars, form, key) && key != vars[|vars| - 1].key {
      var j :| 0 <= j < |vars| && vars[j].key == key;
      assert init[j] == vars[j];
    }
    if FilledKey(init, form, key) {
      var j :| 0 <= j < |init| && init[j].key == key;
      assert vars[j] == init[j];
    }
  }

  lemma FillAllSnoc(ps: seq<Piece>, vars: seq<ParsedVariable>, form: map<string, string>)
    requires vars != []
    ensures var k := vars[|vars| - 1].key;
            var mid := FillAll(ps, vars[..|vars| - 1], form);
            FillAll(ps, vars, form) == if k in form && form[k] != "" then FillHole(mid, k, form[k]) else mid
  {
    forall key {
      FilledKeySnoc(vars, form, key);
    }
  }

  /** The preview of a text made of plain stretches and placeholders is
      that text with each filled placeholder replaced by its value and each
      unfilled one kept, provided no value opens a placeholder of its own. */
  lemma {:induction false} PreviewFillsPlaceholders(ps: seq<Piece>, vars: seq<ParsedVariable>, form: map<string, string>)
    requires Tokenised(ps)
    requires KeysAreIdentifiers(vars)
    requires forall i :: 0 <= i < |vars| && vars[i].key in form ==> NoTokenStart(form[vars[i].key])
    ensures Substituted(Join(ps), vars, form) == Join(FillAll(ps, vars, form))
    decreases |vars|
  {
    if vars == [] {
      assert FillAll(ps, vars, form) == ps;
    } else {
      var init := vars[..|vars| - 1];
      var k := vars[|vars| - 1].key;
      PreviewFillsPlaceholders(ps, init, form);
      var mid := FillAll(ps, init, form);
      FillAllTokenised(ps, init, form);
      FillAllSnoc(ps, vars, form);
      if k in form && form[k] != "" {
        ReplaceAllPieces(mid, k, form[k]);
      } else {
        ReplaceAllIdentity(Join(mid), Token(k));
      }
    }
  }

  // ---------------------------------------------------------------------
  // The variable form

  /** `handleFormChange`: sets one key and keeps every other entry. */
  function FormChange(form: map<string, string>, key: string, value: string): (r: map<string, string>)
    ensures key in r && r[key] == value
    ensures forall k :: k != key ==> (k in r <==> k in form) && (k in form ==> r[k] == form[k])
  {
    form[key := value]
  }

  /** The form the page starts from once variables are known: every key
      mapped to the empty string. */
  function InitialFormData(vars: seq<ParsedVariable>): (r: map<string, string>)
    ensures forall k :: k in r <==> exists i :: 0 <= i < |vars| && vars[i].key == k
    ensures forall k :: k in r ==> r[k] == ""
  {
    var keys := set i | 0 <= i < |vars| :: vars[i].key;
    map k | k in keys :: ""
  }

  /** One variable passes `isFormValid`'s test; `isNumeric` stands for
      `!isNaN(Number(value))`. */
  predicate ValueAccepted(v: ParsedVariable, form: map<string, string>, isNumeric: string -> bool)
    ensures !v.required ==> ValueAccepted(v, form, isNumeric)
    ensures v.required && ValueAccepted(v, form, isNumeric) ==>
              v.key in form && form[v.key] != "" && (v.varType != NumberVar ==> !AllWhitespace(form[v.key]))
  {
    TrimEmptyIff(if v.key in form then form[v.key] else "");
    !v.required ||
    (v.key in form && form[v.key] != "" &&
     if v.varType == NumberVar then isNumeric(form[v.key]) else Trim(form[v.key]) != "")
  }

  /** `isFormValid`: every variable passes. */
  predicate IsFormValid(vars: seq<ParsedVariable>, form: map<string, string>, isNumeric: string -> bool)
    ensures IsFormValid(vars, form, isNumeric) ==>
              forall i :: 0 <= i < |vars| && vars[i].required ==> vars[i].key in form && form[vars[i].key] != ""
  {
    forall i :: 0 <= i < |vars| ==> ValueAccepted(vars[i], form, isNumeric)
  }

  /** The freshly initialised form is invalid as soon as the template has a
      variable, since every variable is required. */
  lemma InitialFormInvalid(c: Option<TemplateContent>, isNumeric: string -> bool)
    requires |TemplateVariables(c)| > 0
    ensures !IsFormValid(TemplateVariables(c), InitialFormData(TemplateVariables(c)), isNumeric)
  {
    var vars := TemplateVariables(c);
    assert vars[0].required;
    assert !ValueAccepted(vars[0], InitialFormData(vars), isNumeric);
  }

  /** A valid form fills every placeholder of the preview with a value. */
  lemma ValidFormFillsAll(c: Option<TemplateContent>, form: map<string, string>, isNumeric: string -> bool)
    requires IsFormValid(TemplateVariables(c), form, isNumeric)
    ensures forall i :: 0 <= i < |TemplateVariables(c)| ==>
              var key := TemplateVariables(c)[i].key;
              key in form && form[key] != "" && FillValue(form, key) == form[key]
  {
    VariablesWellFormed(c);
  }

  /** Editing one field decides that field's variable alone: whether it is
      accepted depends on the new value only ... */
  lemma FormChangeDecidesVariable(v: ParsedVariable, form: map<string, string>,
                                  value: string, isNumeric: string -> bool)
    requires v.required
    ensures ValueAccepted(v, FormChange(form, v.key, value), isNumeric) <==>
            value != "" && if v.varType == NumberVar then isNumeric(value) else !AllWhitespace(value)
  {
    TrimEmptyIff(value);
  }

  /** ... and every other variable keeps its verdict. */
  lemma FormChangeKeepsOthers(v: ParsedVariable, w: ParsedVariable, form: map<string, string>,
                              value: string, isNumeric: string -> bool)
    requires w.key != v.key
    ensures ValueAccepted(w, FormChange(form, v.key, value), isNumeric) <==> ValueAccepted(w, form, isNumeric)
  {
  }

  // ---------------------------------------------------------------------
  // Export

  datatype ExportMode = PageMode | DatabaseMode

  datatype ExportData = ExportData(mode: ExportMode, targetId: string, variables: map<string, string>)

  /** `handleExport`: nothing when the target id is blank, otherwise the mode,
      the trimmed id and the form values as they are. */
  function HandleExport(mode: ExportMode, targetId: string, form: map<string, string>): (r: Option<ExportData>)
    ensures r.None? <==> AllWhitespace(targetId)
    ensures r.Some? ==> r.value.mode == mode && r.value.variables == form
    ensures r.Some? ==> r.value.targetId == Trim(targetId) && r.value.targetId != ""
  {
    TrimEmptyIff(targetId);
    if Trim(targetId) == "" then None else Some(ExportData(mode, Trim(targetId), form))
  }

  /** The id sent is already trimmed: trimming it again changes nothing. */
  lemma ExportedIdTrimmed(mode: ExportMode, targetId: string, form: map<string, string>)
    requires HandleExport(mode, targetId, form).Some?
    ensures Trim(HandleExport(mode, targetId, form).value.targetId) == HandleExport(mode, targetId, form).value.targetId
  {
    TrimIdempotent(targetId);
  }

  /** The dialog's export button is disabled for a blank id, while an export
      is pending, or while the form is invalid. */
  predicate ExportDisabled(targetId: string, pending: bool, formValid: bool)
    ensures !ExportDisabled(targetId, pending, formValid) ==> !AllWhitespace(targetId) && !pending && formValid
  {
    TrimEmptyIff(targetId);
    Trim(targetId) == "" || pending || !formValid
  }

  /** An enabled export button always sends. */
  lemma EnabledExportSends(mode: ExportMode, targetId: string, form: map<string, string>, pending: bool, formValid: bool)
    requires !ExportDisabled(targetId, pending, formValid)
    ensures HandleExport(mode, targetId, form).Some?
  {
    TrimEmptyIff(targetId);
  }

  datatype ExportAction = OpenExportDialog | GoToSettings

  /** `handleExportToNotion`: the dialog opens only when the integration
      status is known and connected, otherwise the user is sent to settings. */
  function ExportToNotion(status: Option<NotionIntegration>): (a: ExportAction)
    ensures a == OpenExportDialog <==> status.Some? && status.value.connected
  {
    if status.Some? && status.value.connected then OpenExportDialog else GoToSettings
  }
}
