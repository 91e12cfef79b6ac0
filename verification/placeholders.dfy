/** The `{identifier}` placeholder scanner shared by the template detail page
    and the admin editor: the global regular expression `\{([a-zA-Z0-9_]+)\}`
    applied to every string leaf of a JSON value, and the walk that collects
    the keys it finds into a first-occurrence, duplicate-free list. */
module Placeholders {
  import opened Json

  predicate IsIdentChar(c: char) {
    'a' <= c <= 'z' || 'A' <= c <= 'Z' || '0' <= c <= '9' || c == '_'
  }

  /** A placeholder key: one or more of `[A-Za-z0-9_]`. */
  predicate IsKey(k: string) {
    |k| > 0 && forall i :: 0 <= i < |k| ==> IsIdentChar(k[i])
  }

  /** The placeholder text for `key`, `{key}`. */
  function Token(key: string): (t: string)
    ensures |t| == |key| + 2 && t[0] == '{' && t[|t| - 1] == '}' && t[1..|t| - 1] == key
  {
    ['{'] + key + ['}']
  }

  /** `{k}` stands at position `p` of `s`, with `k` a placeholder key. */
  predicate OccursAt(s: string, p: int, k: string) {
    IsKey(k) && 0 <= p && p + |k| + 2 <= |s| && s[p..p + |k| + 2] == Token(k)
  }

  /** Length of the run of identifier characters of `s` starting at `j`. */
  function RunLength(s: string, j: nat): (n: nat)
    requires j <= |s|
    ensures j + n <= |s|
    ensures forall i :: j <= i < j + n ==> IsIdentChar(s[i])
    ensures j + n == |s| || !IsIdentChar(s[j + n])
    decreases |s| - j
  {
    if j < |s| && IsIdentChar(s[j]) then 1 + RunLength(s, j + 1) else 0
  }

  /** The regular expression matches at `i`. The identifier run after `{` is
      greedy and can only be followed by `}` where it ends, so trying
      shorter runs never finds another match. */
  predicate TokenAt(s: string, i: nat)
    requires i < |s|
  {
    var n := RunLength(s, i + 1);
    s[i] == '{' && n > 0 && i + 1 + n < |s| && s[i + 1 + n] == '}'
  }

  /** The keys of `s.match(/\{([a-zA-Z0-9_]+)\}/g)` from position `i` on, braces
      removed: after a match the scan resumes behind its `}`, otherwise at the
      next character. */
  function MatchesFrom(s: string, i: nat): (r: seq<string>)
    requires i <= |s|
    ensures forall j :: 0 <= j < |r| ==> IsKey(r[j])
    decreases |s| - i
  {
    if i == |s| then []
    else if TokenAt(s, i) then
      var n := RunLength(s, i + 1);
      [s[i + 1..i + 1 + n]] + MatchesFrom(s, i + n + 2)
    else MatchesFrom(s, i + 1)
  }

  function Matches(s: string): seq<string> {
    MatchesFrom(s, 0)
  }

  /** A run whose bounds are known has exactly that length. */
  lemma RunLengthExact(s: string, j: nat, n: nat)
    requires j + n <= |s|
    requires forall i :: j <= i < j + n ==> IsIdentChar(s[i])
    requires j + n == |s| || !IsIdentChar(s[j + n])
    ensures RunLength(s, j) == n
  {
  }

  lemma {:induction false} MatchesFromSound(s: string, i: nat, k: string)
    requires i <= |s| && k in MatchesFrom(s, i)
    ensures exists p :: i <= p && OccursAt(s, p, k)
    decreases |s| - i
  {
    if i < |s| {
      if TokenAt(s, i) {
        var n := RunLength(s, i + 1);
        if k == s[i + 1..i + 1 + n] {
          assert s[i..i + n + 2] == Token(k);
          assert OccursAt(s, i, k);
        } else {
          MatchesFromSound(s, i + n + 2, k);
        }
      } else {
        MatchesFromSound(s, i + 1, k);
      }
    }
  }

  /** What an occurrence of `{k}` at `p` says about the characters of `s`. */
  lemma OccurrenceParts(s: string, p: nat, k: string)
    requires OccursAt(s, p, k)
    ensures s[p] == '{' && s[p + |k| + 1] == '}'
    ensures s[p + 1..p + 1 + |k|] == k
    ensures forall q :: p + 1 <= q < p + 1 + |k| ==> IsIdentChar(s[q])
  {
    var t := s[p..p + |k| + 2];
    assert t == Token(k);
    assert s[p] == t[0];
    assert s[p + |k| + 1] == t[|k| + 1];
    forall q | p + 1 <= q < p + 1 + |k| ensures s[q] == k[q - p - 1] {
      assert s[q] == t[q - p];
    }
    assert s[p + 1..p + 1 + |k|] == k;
  }

  /** A match at `i` covers no `{` but its first character, so the scan
      resumes at or before any later `{`. */
  lemma MatchCoversNoBrace(s: string, i: nat, p: nat)
    requires i < p < |s| && TokenAt(s, i) && s[p] == '{'
    ensures i + RunLength(s, i + 1) + 2 <= p
  {
  }

  /** The scan started on an occurrence reports its key first. */
  lemma MatchAtOccurrence(s: string, p: nat, k: string)
    requires OccursAt(s, p, k)
    ensures p < |s| && TokenAt(s, p)
    ensures MatchesFrom(s, p) == [k] + MatchesFrom(s, p + |k| + 2)
  {
    OccurrenceParts(s, p, k);
    RunLengthExact(s, p + 1, |k|);
  }

  lemma {:induction false} MatchesFromComplete(s: string, i: nat, p: nat, k: string)
    requires i <= p && OccursAt(s, p, k)
    ensures k in MatchesFrom(s, i)
    decreases |s| - i
  {
    if i == p {
      MatchAtOccurrence(s, p, k);
    } else {
      OccurrenceParts(s, p, k);
      if TokenAt(s, i) {
        MatchCoversNoBrace(s, i, p);
        MatchesFromComplete(s, i + RunLength(s, i + 1) + 2, p, k);
      } else {
        MatchesFromComplete(s, i + 1, p, k);
      }
    }
  }

  /** A key is matched in `s` exactly when `{key}` occurs in `s`: the
      left-to-right scan without overlap misses no occurrence, because a
      match never covers a `{` other than its own. */
  lemma MatchesIff(s: string, k: string)
    ensures k in Matches(s) <==> exists p :: OccursAt(s, p, k)
  {
    if k in Matches(s) {
      MatchesFromSound(s, 0, k);
    }
    if p :| OccursAt(s, p, k) {
      MatchesFromComplete(s, 0, p, k);
    }
  }

  // ---------------------------------------------------------------------
  // First-occurrence, duplicate-free collection

  /** `acc` extended, in order, by every element of `ks` that is not yet in
      it: the `if (!variableSet.has(key)) { ... variables.push(key) }` step
      applied to each key in turn. */
  function AddNew<T(==)>(acc: seq<T>, ks: seq<T>): (r: seq<T>)
    ensures |acc| <= |r| && r[..|acc|] == acc
    decreases |ks|
  {
    if ks == [] then acc
    else
      var prev := AddNew(acc, ks[..|ks| - 1]);
      if ks[|ks| - 1] in prev then prev else prev + [ks[|ks| - 1]]
  }

  /** The distinct elements of `ks` in order of first occurrence. */
  function Dedup<T(==)>(ks: seq<T>): seq<T> {
    AddNew([], ks)
  }

  predicate NoDuplicates<T(==)>(s: seq<T>) {
    forall i, j :: 0 <= i < j < |s| ==> s[i] != s[j]
  }

  lemma {:induction false} AddNewMembers<T>(acc: seq<T>, ks: seq<T>, x: T)
    ensures x in AddNew(acc, ks) <==> x in acc || x in ks
    decreases |ks|
  {
    if ks != [] {
      var init := ks[..|ks| - 1];
      assert ks == init + [ks[|ks| - 1]];
      AddNewMembers(acc, init, x);
      AddNewMembers(acc, init, ks[|ks| - 1]);
    }
  }

  lemma {:induction false} AddNewNoDuplicates<T>(acc: seq<T>, ks: seq<T>)
    requires NoDuplicates(acc)
    ensures NoDuplicates(AddNew(acc, ks))
    decreases |ks|
  {
    if ks != [] {
      AddNewNoDuplicates(acc, ks[..|ks| - 1]);
    }
  }

  /** Feeding two key lists one after the other is feeding their
      concatenation: what lets a walk of a tree call itself on the children. */
  lemma {:induction false} AddNewConcat<T>(acc: seq<T>, a: seq<T>, b: seq<T>)
    ensures AddNew(acc, a + b) == AddNew(AddNew(acc, a), b)
    decreases |b|
  {
    if b == [] {
      assert a + b == a;
    } else {
      var init := b[..|b| - 1];
      assert (a + b)[..|a + b| - 1] == a + init;
      assert (a + b)[|a + b| - 1] == b[|b| - 1];
      AddNewConcat(acc, a, init);
    }
  }

  /** Position of the first occurrence of `x` in `s`. */
  function IndexOf<T(==)>(s: seq<T>, x: T): (i: nat)
    requires x in s
    ensures i < |s| && s[i] == x && x !in s[..i]
  {
    if s[0] == x then 0
    else
      var j := IndexOf(s[1..], x);
      assert s[1..][..j] == s[1..j + 1];
      j + 1
  }

  lemma {:induction false} IndexOfAppend<T>(s: seq<T>, y: T, x: T)
    requires x in s
    ensures IndexOf(s + [y], x) == IndexOf(s, x)
  {
    if s[0] != x {
      assert (s + [y])[1..] == s[1..] + [y];
      IndexOfAppend(s[1..], y, x);
    }
  }

  /** The collected list is exactly the distinct keys, without duplicates,
      ordered by where each key first occurs. */
  lemma {:induction false} DedupCharacterised<T>(ks: seq<T>)
    ensures forall x :: x in Dedup(ks) <==> x in ks
    ensures NoDuplicates(Dedup(ks))
    ensures forall i, j :: 0 <= i < j < |Dedup(ks)| ==>
              Dedup(ks)[i] in ks && Dedup(ks)[j] in ks && IndexOf(ks, Dedup(ks)[i]) < IndexOf(ks, Dedup(ks)[j])
    decreases |ks|
  {
    forall x ensures x in Dedup(ks) <==> x in ks {
      AddNewMembers([], ks, x);
    }
    AddNewNoDuplicates([], ks);
    if ks != [] {
      var init := ks[..|ks| - 1];
      var last := ks[|ks| - 1];
      assert ks == init + [last];
      DedupCharacterised(init);
      var d := Dedup(init);
      forall x | x in init ensures IndexOf(ks, x) == IndexOf(init, x) {
        IndexOfAppend(init, last, x);
      }
      if last !in init {
        assert IndexOf(ks, last) == |init| by {
          assert ks[..|init|] == init;
        }
        forall i | 0 <= i < |d| ensures IndexOf(ks, d[i]) < |init| {
          assert d[i] in d;
          AddNewMembers([], init, d[i]);
        }
      }
    }
  }

  // ---------------------------------------------------------------------
  // The walk over a JSON value

  /** Every key found in a string leaf of `v`, duplicates included, in walk
      order: a leaf's matches left to right, array items in index order,
      object members in entry order. Numbers, booleans and null give none. */
  function Keys(v: Json): seq<string>
    decreases v, 1
  {
    match v
    case JString(s) => Matches(s)
    case JArray(items) => ItemKeys(items)
    case JObject(members) => MemberKeys(members)
    case _ => []
  }

  function ItemKeys(items: seq<Json>): seq<string>
    decreases items, 0
  {
    if items == [] then [] else ItemKeys(items[..|items| - 1]) + Keys(items[|items| - 1])
  }

  function MemberKeys(members: seq<Member>): seq<string>
    decreases members, 0
  {
    if members == [] then [] else MemberKeys(members[..|members| - 1]) + Keys(members[|members| - 1].value)
  }

  /** Some string leaf of `v` contains `{k}`. */
  ghost predicate Mentions(v: Json, k: string)
    decreases v
  {
    match v
    case JString(s) => exists p :: OccursAt(s, p, k)
    case JArray(items) => exists i :: 0 <= i < |items| && Mentions(items[i], k)
    case JObject(members) => exists i :: 0 <= i < |members| && Mentions(members[i].value, k)
    case _ => false
  }

  /** Only placeholder keys are ever mentioned. */
  lemma {:induction false} MentionedIsKey(v: Json, k: string)
    requires Mentions(v, k)
    ensures IsKey(k)
    decreases v
  {
    match v
    case JString(s) =>
    case JArray(items) =>
      var i :| 0 <= i < |items| && Mentions(items[i], k);
      MentionedIsKey(items[i], k);
    case JObject(members) =>
      var i :| 0 <= i < |members| && Mentions(members[i].value, k);
      MentionedIsKey(members[i].value, k);
  }

  /** A key is found in a value exactly when some string leaf of it holds
      `{key}`. */
  lemma {:induction false} KeysIff(v: Json, k: string)
    ensures k in Keys(v) <==> Mentions(v, k)
    decreases v, 1
  {
    match v
    case JString(s) => MatchesIff(s, k);
    case JArray(items) => ItemKeysIff(items, k);
    case JObject(members) => MemberKeysIff(members, k);
    case _ =>
  }

  lemma {:induction false} ItemKeysIff(items: seq<Json>, k: string)
    ensures k in ItemKeys(items) <==> exists i :: 0 <= i < |items| && Mentions(items[i], k)
    decreases items, 0
  {
    if items != [] {
      var init := items[..|items| - 1];
      ItemKeysIff(init, k);
      KeysIff(items[|items| - 1], k);
      if i :| 0 <= i < |items| - 1 && Mentions(items[i], k) {
        assert Mentions(init[i], k);
      }
      if i :| 0 <= i < |init| && Mentions(init[i], k) {
        assert Mentions(items[i], k);
      }
    }
  }

  lemma {:induction false} MemberKeysIff(members: seq<Member>, k: string)
    ensures k in MemberKeys(members) <==> exists i :: 0 <= i < |members| && Mentions(members[i].value, k)
    decreases members, 0
  {
    if members != [] {
      var init := members[..|members| - 1];
      MemberKeysIff(init, k);
      KeysIff(members[|members| - 1].value, k);
      if i :| 0 <= i < |members| - 1 && Mentions(members[i].value, k) {
        assert Mentions(init[i].value, k);
      }
      if i :| 0 <= i < |init| && Mentions(init[i].value, k) {
        assert Mentions(members[i].value, k);
      }
    }
  }

  /** The recursive `extractVariables` closure: walks `v`, pushing every key
      not yet in the set `seen` onto `vars` and adding it to `seen`. */
  method Walk(v: Json, vars: seq<string>, seen: set<string>) returns (vars': seq<string>, seen': set<string>)
    requires seen == set x | x in vars
    ensures vars' == AddNew(vars, Keys(v))
    ensures seen' == set x | x in vars'
    decreases v
  {
    vars', seen' := vars, seen;
    match v {
      case JString(s) =>
        var matches := Matches(s);
        var j := 0;
        while j < |matches|
          invariant 0 <= j <= |matches|
          invariant vars' == AddNew(vars, matches[..j])
          invariant seen' == set x | x in vars'
        {
          var key := matches[j];
          if key !in seen' {
            seen' := seen' + {key};
            vars' := vars' + [key];
          }
          assert matches[..j + 1][..j] == matches[..j];
          j := j + 1;
        }
        assert matches[..j] == matches;
      case JArray(items) =>
        var i := 0;
        while i < |items|
          invariant 0 <= i <= |items|
          invariant vars' == AddNew(vars, ItemKeys(items[..i]))
          invariant seen' == set x | x in vars'
        {
          assert items[..i + 1][..i] == items[..i];
          AddNewConcat(vars, ItemKeys(items[..i]), Keys(items[i]));
          vars', seen' := Walk(items[i], vars', seen');
          i := i + 1;
        }
        assert items[..i] == items;
      case JObject(members) =>
        var i := 0;
        while i < |members|
          invariant 0 <= i <= |members|
          invariant vars' == AddNew(vars, MemberKeys(members[..i]))
          invariant seen' == set x | x in vars'
        {
          assert members[..i + 1][..i] == members[..i];
          AddNewConcat(vars, MemberKeys(members[..i]), Keys(members[i].value));
          vars', seen' := Walk(members[i].value, vars', seen');
          i := i + 1;
        }
        assert members[..i] == members;
      case _ =>
    }
  }

  /** Runs the walk from the root with an empty list and an empty set: the
      result is the distinct keys of the value in first-occurrence order. */
  method CollectKeys(root: Json) returns (keys: seq<string>)
    ensures keys == Dedup(Keys(root))
    ensures NoDuplicates(keys)
    ensures forall k :: k in keys <==> Mentions(root, k)
  {
    var seen;
    keys, seen := Walk(root, [], {});
    DedupCharacterised(Keys(root));
    forall k ensures k in keys <==> Mentions(root, k) {
      KeysIff(root, k);
    }
  }
}
