/** The recursive diff behind PATCH audit details, and the redaction of secrets. */
module JsonDiff {
  import opened Wrappers

  /** A JSON value. Numbers compare by value whatever their storage; the members of an object
      are unordered. */
  datatype Json =
    | Null
    | Bool(truth: bool)
    | Num(value: real)
    | Str(text: string)
    | Arr(items: seq<Json>)
    | Obj(members: map<string, Json>)

  // ---- sensitive keys ------------------------------------------------------------------

  const SENSITIVE: seq<string> := [
    "password", "passwd", "secret", "token", "apikey", "api_key",
    "private_key", "privatekey", "master_key", "masterkey",
    "sign_key", "signkey", "hmac_key", "hmackey",
    "ssh_key", "sshkey", "jwt", "bearer", "authorization",
    "session_id", "sessionid"]

  const REDACTED := Str("[REDACTED]")

  function LowerChar(c: char): char {
    if 'A' <= c <= 'Z' then (c as int + 32) as char else c
  }

  function Lower(s: string): string {
    if s == [] then [] else [LowerChar(s[0])] + Lower(s[1..])
  }

  predicate Contains(s: string, part: string) {
    exists i | 0 <= i <= |s| :: part <= s[i..]
  }

  predicate IsSensitive(key: string) {
    exists i | 0 <= i < |SENSITIVE| :: Contains(Lower(key), SENSITIVE[i])
  }

  // ---- what that means, letter by letter -----------------------------------------------------

  /** The same letter, capital or small; anything but a letter of ASCII only itself. */
  predicate SameLetter(c: char, d: char) {
    || c == d
    || ('A' <= c <= 'Z' && d as int == c as int + 0x20)
    || ('A' <= d <= 'Z' && c as int == d as int + 0x20)
  }

  predicate SpeltAs(s: string, t: string) {
    |s| == |t| && forall i | 0 <= i < |s| :: SameLetter(s[i], t[i])
  }

  predicate SpeltAt(key: string, word: string, i: int) {
    0 <= i <= |key| - |word| && SpeltAs(key[i..i + |word|], word)
  }

  /** The word stands somewhere in the key, in whatever mix of capitals. */
  ghost predicate Hides(key: string, word: string) {
    exists i :: SpeltAt(key, word, i)
  }

  ghost predicate NamesSecret(key: string) {
    || Hides(key, "password") || Hides(key, "passwd") || Hides(key, "secret")
    || Hides(key, "token") || Hides(key, "apikey") || Hides(key, "api_key")
    || Hides(key, "private_key") || Hides(key, "privatekey") || Hides(key, "master_key")
    || Hides(key, "masterkey") || Hides(key, "sign_key") || Hides(key, "signkey")
    || Hides(key, "hmac_key") || Hides(key, "hmackey") || Hides(key, "ssh_key")
    || Hides(key, "sshkey") || Hides(key, "jwt") || Hides(key, "bearer")
    || Hides(key, "authorization") || Hides(key, "session_id") || Hides(key, "sessionid")
  }

  lemma {:induction false} LowerAt(s: string)
    ensures |Lower(s)| == |s| && forall i | 0 <= i < |s| :: Lower(s)[i] == LowerChar(s[i])
  {
    if s != [] {
      LowerAt(s[1..]);
    }
  }

  predicate AllLower(word: string) {
    forall i | 0 <= i < |word| :: !('A' <= word[i] <= 'Z')
  }

  lemma LowerSpelt(s: string, word: string)
    requires AllLower(word)
    ensures Lower(s) == word <==> SpeltAs(s, word)
  {
    LowerAt(s);
  }

  lemma {:induction false} LowerPart(s: string, i: nat, j: nat)
    requires i <= j <= |s|
    ensures |Lower(s)| == |s| && Lower(s)[i..j] == Lower(s[i..j])
  {
    LowerAt(s);
    LowerAt(s[i..j]);
  }

  lemma ContainsMeans(key: string, word: string)
    requires AllLower(word)
    ensures Contains(Lower(key), word) <==> Hides(key, word)
  {
    hide Lower, SpeltAs;
    var low, n := Lower(key), |word|;
    LowerPart(key, 0, |key|);
    if Contains(low, word) {
      var i :| 0 <= i <= |low| && word <= low[i..];
      assert low[i..i + n] == low[i..][..n] == word;
      LowerPart(key, i, i + n);
      LowerSpelt(key[i..i + n], word);
      assert SpeltAt(key, word, i);
    }
    if Hides(key, word) {
      var i :| SpeltAt(key, word, i);
      LowerPart(key, i, i + n);
      LowerSpelt(key[i..i + n], word);
      assert low[i..][..n] == low[i..i + n];
    }
  }

  /** Which keys are sensitive: those in which one of the 21 words stands somewhere, in whatever
      mix of capitals. */
  lemma SensitiveMeans(key: string)
    ensures IsSensitive(key) <==> NamesSecret(key)
  {
    hide Contains, Hides, Lower;
    AllWordsLower();
    forall i | 0 <= i < |SENSITIVE| ensures Contains(Lower(key), SENSITIVE[i]) <==> Hides(key, SENSITIVE[i]) {
      ContainsMeans(key, SENSITIVE[i]);
    }
    SensitiveIsSome(key);
    NamesIsSome(key);
  }

  lemma AllWordsLower()
    ensures forall i | 0 <= i < |SENSITIVE| :: AllLower(SENSITIVE[i])
  {
  }

  lemma SensitiveIsSome(key: string)
    ensures IsSensitive(key) <==> exists i :: 0 <= i < |SENSITIVE| && Contains(Lower(key), SENSITIVE[i])
  {
  }

  lemma NamesIsSome(key: string)
    ensures NamesSecret(key) <==> exists i :: 0 <= i < |SENSITIVE| && Hides(key, SENSITIVE[i])
  {
    hide Hides;
    if NamesSecret(key) {
      assert |SENSITIVE| == 21;
      assert SENSITIVE[0] == "password";
      assert SENSITIVE[1] == "passwd";
      assert SENSITIVE[2] == "secret";
      assert SENSITIVE[3] == "token";
      assert SENSITIVE[4] == "apikey";
      assert SENSITIVE[5] == "api_key";
      assert SENSITIVE[6] == "private_key";
      assert SENSITIVE[7] == "privatekey";
      assert SENSITIVE[8] == "master_key";
      assert SENSITIVE[9] == "masterkey";
      assert SENSITIVE[10] == "sign_key";
      assert SENSITIVE[11] == "signkey";
      assert SENSITIVE[12] == "hmac_key";
      assert SENSITIVE[13] == "hmackey";
      assert SENSITIVE[14] == "ssh_key";
      assert SENSITIVE[15] == "sshkey";
      assert SENSITIVE[16] == "jwt";
      assert SENSITIVE[17] == "bearer";
      assert SENSITIVE[18] == "authorization";
      assert SENSITIVE[19] == "session_id";
      assert SENSITIVE[20] == "sessionid";
    }
  }

  /** Capitals make no difference: two keys that agree letter by letter are both sensitive or
      neither is. */
  lemma CapitalsDoNotMatter(key: string, other: string)
    requires SpeltAs(key, other)
    ensures IsSensitive(key) <==> IsSensitive(other)
  {
    LowerAt(key);
    LowerAt(other);
    assert Lower(key) == Lower(other);
  }

  /** Nor does what stands before or behind a word. */
  lemma AnywhereInTheKey(before: string, spelt: string, behind: string, word: string)
    requires SpeltAs(spelt, word)
    ensures Hides(before + spelt + behind, word)
  {
    var key := before + spelt + behind;
    assert key[|before|..|before| + |word|] == spelt;
    assert SpeltAt(key, word, |before|);
  }

  // ---- redaction -----------------------------------------------------------------------

  function Redacted(v: Json): Json {
    match v
    case Obj(members) => Obj(map k | k in members :: if IsSensitive(k) then REDACTED else Redacted(members[k]))
    case Arr(items) => Arr(seq(|items|, i requires 0 <= i < |items| => Redacted(items[i])))
    case _ => v
  }

  /** No sensitive key anywhere in the value says anything. */
  ghost predicate NoSecrets(v: Json) {
    match v
    case Obj(members) => forall k | k in members ::
      if IsSensitive(k) then members[k] == REDACTED else NoSecrets(members[k])
    case Arr(items) => forall i | 0 <= i < |items| :: NoSecrets(items[i])
    case _ => true
  }

  lemma {:induction false} RedactedHasNoSecrets(v: Json)
    ensures NoSecrets(Redacted(v))
  {
    hide IsSensitive;
    match v
    case Obj(members) =>
      forall k | k in members ensures NoSecrets(Redacted(members[k])) {
        RedactedHasNoSecrets(members[k]);
      }
    case Arr(items) =>
      forall i | 0 <= i < |items| ensures NoSecrets(Redacted(items[i])) {
        RedactedHasNoSecrets(items[i]);
      }
    case _ =>
  }

  /** Redaction changes exactly the values that hold a secret, so doing it twice is doing it
      once. */
  lemma {:induction false} RedactionFixpoint(v: Json)
    ensures Redacted(v) == v <==> NoSecrets(v)
  {
    hide IsSensitive;
    match v
    case Obj(members) =>
      forall k | k in members ensures Redacted(members[k]) == members[k] <==> NoSecrets(members[k]) {
        RedactionFixpoint(members[k]);
      }
      if NoSecrets(v) {
        assert Redacted(v).members == members;
      }
      if Redacted(v) == v {
        forall k | k in members ensures if IsSensitive(k) then members[k] == REDACTED else NoSecrets(members[k]) {
          assert Redacted(v).members[k] == members[k];
        }
      }
    case Arr(items) =>
      forall i | 0 <= i < |items| ensures Redacted(items[i]) == items[i] <==> NoSecrets(items[i]) {
        RedactionFixpoint(items[i]);
      }
      if NoSecrets(v) {
        assert Redacted(v).items == items;
      }
      if Redacted(v) == v {
        forall i | 0 <= i < |items| ensures NoSecrets(items[i]) {
          assert Redacted(v).items[i] == items[i];
        }
      }
    case _ =>
  }

  // ---- the diff ------------------------------------------------------------------------

  predicate BothObjects(a: Json, b: Json) {
    a.Obj? && b.Obj?
  }

  function Leaf(key: string, before: Json, after: Json): Json {
    if IsSensitive(key) then Obj(map["before" := REDACTED, "after" := REDACTED])
    else Obj(map["before" := before, "after" := after])
  }

  /** The member of an object, null when it has none. */
  function Member(v: Json, key: string): Json
    requires v.Obj?
  {
    if key in v.members then v.members[key] else Null
  }

  function Find(members: map<string, Json>, key: string): Option<Json> {
    if key in members then Some(members[key]) else None
  }

  function DiffAt(before: Json, after: Json, skip: set<string>, key: string): Option<Json>
    requires BothObjects(before, after)
    decreases before, 0
  {
    if key in skip || (key !in before.members && key !in after.members) then None
    else if key in before.members && key in after.members then
      var b, a := before.members[key], after.members[key];
      if BothObjects(b, a) then
        var sub := Diff(b, a, skip);
        if sub == map[] then None else Some(Obj(sub))
      else if b != a then Some(Leaf(key, b, a))
      else None
    else Some(Leaf(key, Member(before, key), Member(after, key)))
  }

  function Diff(before: Json, after: Json, skip: set<string>): map<string, Json>
    decreases before, 1
  {
    if !BothObjects(before, after) then map[]
    else map key | key in before.members.Keys + after.members.Keys && DiffAt(before, after, skip, key).Some?
           :: DiffAt(before, after, skip, key).value
  }

  // ---- when the diff is empty ------------------------------------------------------------

  /** An object without the skipped keys, at every depth reached through objects. */
  function Strip(v: Json, skip: set<string>): Json {
    match v
    case Obj(members) => Obj(map k | k in members && k !in skip :: Strip(members[k], skip))
    case _ => v
  }

  function StripAt(v: Json, skip: set<string>, key: string): Option<Json>
    requires v.Obj?
  {
    if key in v.members && key !in skip then Some(Strip(v.members[key], skip)) else None
  }

  lemma StripByKeys(v: Json, w: Json, skip: set<string>)
    requires BothObjects(v, w)
    ensures Strip(v, skip) == Strip(w, skip) <==> forall key :: StripAt(v, skip, key) == StripAt(w, skip, key)
  {
    var sv, sw := Strip(v, skip).members, Strip(w, skip).members;
    if forall key :: StripAt(v, skip, key) == StripAt(w, skip, key) {
      forall key ensures key in sv <==> key in sw {
        assert StripAt(v, skip, key) == StripAt(w, skip, key);
      }
      forall key | key in sv ensures sv[key] == sw[key] {
        assert StripAt(v, skip, key) == StripAt(w, skip, key);
      }
      assert sv == sw;
    }
    if sv == sw {
      forall key ensures StripAt(v, skip, key) == StripAt(w, skip, key) {
        assert key in sv <==> key in sw;
        assert key in sv ==> sv[key] == sw[key];
      }
    }
  }

  lemma DiffByKeys(before: Json, after: Json, skip: set<string>, key: string)
    requires BothObjects(before, after)
    ensures DiffAt(before, after, skip, key) == Find(Diff(before, after, skip), key)
  {
  }

  ghost predicate NothingAt(before: Json, after: Json, skip: set<string>)
    requires BothObjects(before, after)
  {
    forall key :: DiffAt(before, after, skip, key) == None
  }

  lemma EmptyByKeys(before: Json, after: Json, skip: set<string>)
    requires BothObjects(before, after)
    ensures Diff(before, after, skip) == map[] <==> NothingAt(before, after, skip)
  {
    hide DiffAt, Diff;
    if Diff(before, after, skip) == map[] {
      forall key ensures DiffAt(before, after, skip, key) == None {
        DiffByKeys(before, after, skip, key);
      }
    }
    if NothingAt(before, after, skip) {
      forall key ensures key !in Diff(before, after, skip) {
        assert DiffAt(before, after, skip, key) == None;
        DiffByKeys(before, after, skip, key);
      }
    }
  }

  /** The diff is empty exactly when the two objects are equal but for the skipped keys. */
  lemma {:induction false} EmptyMeansEqual(before: Json, after: Json, skip: set<string>)
    requires BothObjects(before, after)
    ensures Diff(before, after, skip) == map[] <==> Strip(before, skip) == Strip(after, skip)
    decreases before, 1
  {
    hide Diff, DiffAt, Strip, StripAt;
    EmptyByKeys(before, after, skip);
    StripByKeys(before, after, skip);
    forall key
      ensures DiffAt(before, after, skip, key) == None <==> StripAt(before, skip, key) == StripAt(after, skip, key)
    {
      EmptyAtMeansEqual(before, after, skip, key);
    }
    if Strip(before, skip) == Strip(after, skip) {
      forall key ensures DiffAt(before, after, skip, key) == None {
        assert StripAt(before, skip, key) == StripAt(after, skip, key);
      }
    }
    if Diff(before, after, skip) == map[] {
      forall key ensures StripAt(before, skip, key) == StripAt(after, skip, key) {
        assert DiffAt(before, after, skip, key) == None;
      }
    }
  }

  lemma {:induction false} EmptyAtMeansEqual(before: Json, after: Json, skip: set<string>, key: string)
    requires BothObjects(before, after)
    ensures DiffAt(before, after, skip, key) == None <==> StripAt(before, skip, key) == StripAt(after, skip, key)
    decreases before, 0
  {
    hide Diff, Leaf;
    if key !in skip && key in before.members && key in after.members {
      var b, a := before.members[key], after.members[key];
      if BothObjects(b, a) {
        EmptyMeansEqual(b, a, skip);
      }
    }
  }

  // ---- telling a leaf from a nested diff ------------------------------------------------------

  /** A leaf has exactly the two members, and they are not both objects. */
  predicate IsLeaf(entry: Json) {
    entry.Obj? && entry.members.Keys == {"before", "after"}
    && !BothObjects(entry.members["before"], entry.members["after"])
  }

  /** A leaf is recognised as one and a nested diff is not, whatever its keys are called: the
      members of a nested diff are always objects. */
  lemma LeafOrNested(before: Json, after: Json, skip: set<string>, key: string)
    requires BothObjects(before, after)
    ensures var entry := DiffAt(before, after, skip, key);
            entry.Some? ==>
              && entry.value.Obj?
              && (IsLeaf(entry.value) <==> !BothObjects(Member(before, key), Member(after, key)))
              && (IsLeaf(entry.value) ==> entry.value == Leaf(key, Member(before, key), Member(after, key)))
              && (!IsLeaf(entry.value) ==> entry.value == Obj(Diff(Member(before, key), Member(after, key), skip)))
  {
    hide Diff, Leaf;
    var entry := DiffAt(before, after, skip, key);
    var b, a := Member(before, key), Member(after, key);
    if entry.Some? {
      if BothObjects(b, a) {
        forall k | k in Diff(b, a, skip) ensures Diff(b, a, skip)[k].Obj? {
          EntriesAreObjects(b, a, skip, k);
        }
        assert entry.value == Obj(Diff(b, a, skip));
      } else {
        LeafIsLeaf(key, b, a);
      }
    }
  }

  lemma LeafIsLeaf(key: string, b: Json, a: Json)
    requires !BothObjects(b, a)
    ensures IsLeaf(Leaf(key, b, a))
    ensures Leaf(key, b, a).members["before"] == (if IsSensitive(key) then REDACTED else b)
    ensures Leaf(key, b, a).members["after"] == (if IsSensitive(key) then REDACTED else a)
  {
    hide IsSensitive;
    assert "before" != "after";
    var leaf := Leaf(key, b, a);
    assert leaf.members.Keys == {"before", "after"};
  }

  lemma EntriesAreObjects(before: Json, after: Json, skip: set<string>, key: string)
    requires BothObjects(before, after) && key in Diff(before, after, skip)
    ensures Diff(before, after, skip)[key].Obj?
  {
  }

  // ---- decoding -------------------------------------------------------------------------------

  /** What a diff says became of one member; null stands for no member. */
  function ApplyAt(diff: map<string, Json>, before: Json, key: string): Option<Json>
    requires before.Obj?
    decreases before, 0
  {
    if key !in diff then (if key in before.members then Some(before.members[key]) else None)
    else if IsLeaf(diff[key]) then
      var after := diff[key].members["after"];
      if after == Null then None else Some(after)
    else if diff[key].Obj? && key in before.members && before.members[key].Obj? then
      Some(Apply(diff[key].members, before.members[key]))
    else None
  }

  function Apply(diff: map<string, Json>, before: Json): Json
    requires before.Obj?
    decreases before, 1
  {
    Obj(map key | key in before.members.Keys + diff.Keys && ApplyAt(diff, before, key).Some?
        :: ApplyAt(diff, before, key).value)
  }

  /** Nothing about this member is lost on the way: a change to or from another value than an
      object is told in full unless the key is sensitive or the member became null. */
  predicate FaithfulAt(before: Json, after: Json, skip: set<string>, key: string)
    requires BothObjects(before, after)
    decreases before, 0
  {
    var b, a := Member(before, key), Member(after, key);
    if key in skip then true
    else if key in before.members && key in after.members && BothObjects(b, a) then Faithful(b, a, skip)
    else if DiffAt(before, after, skip, key) == None then true
    else if IsSensitive(key) then a == REDACTED
    else key !in after.members || a != Null
  }

  predicate Faithful(before: Json, after: Json, skip: set<string>)
    requires BothObjects(before, after)
    decreases before, 1
  {
    forall key | key in before.members.Keys + after.members.Keys :: FaithfulAt(before, after, skip, key)
  }

  lemma ApplyByKeys(diff: map<string, Json>, before: Json, key: string)
    requires before.Obj?
    ensures ApplyAt(diff, before, key) == Find(Apply(diff, before).members, key)
  {
  }

  /** Applying the diff to the old document gives the new one, but for the skipped keys,
      exactly when no member changed to null and none under a sensitive key changed to
      anything but the redaction mark. */
  lemma {:induction false} ApplyRebuilds(before: Json, after: Json, skip: set<string>)
    requires BothObjects(before, after)
    ensures Strip(Apply(Diff(before, after, skip), before), skip) == Strip(after, skip)
            <==> Faithful(before, after, skip)
    decreases before, 1
  {
    hide Diff, DiffAt, Strip, StripAt, FaithfulAt, Apply, ApplyAt;
    var rebuilt := Apply(Diff(before, after, skip), before);
    ApplyIsObject(Diff(before, after, skip), before);
    StripByKeys(rebuilt, after, skip);
    forall key
      ensures StripAt(rebuilt, skip, key) == StripAt(after, skip, key) <==> FaithfulAt(before, after, skip, key)
    {
      RebuildsAt(before, after, skip, key);
    }
    if Strip(rebuilt, skip) == Strip(after, skip) {
      forall key | key in before.members.Keys + after.members.Keys ensures FaithfulAt(before, after, skip, key) {
        assert StripAt(rebuilt, skip, key) == StripAt(after, skip, key);
      }
    }
    if Faithful(before, after, skip) {
      forall key ensures StripAt(rebuilt, skip, key) == StripAt(after, skip, key) {
        if key !in before.members.Keys + after.members.Keys {
          ForeignIsFaithful(before, after, skip, key);
        }
      }
    }
  }

  lemma ApplyIsObject(diff: map<string, Json>, before: Json)
    requires before.Obj?
    ensures Apply(diff, before).Obj?
  {
  }

  lemma ForeignIsFaithful(before: Json, after: Json, skip: set<string>, key: string)
    requires BothObjects(before, after) && key !in before.members && key !in after.members
    ensures FaithfulAt(before, after, skip, key)
  {
  }

  lemma {:induction false} RebuildsAt(before: Json, after: Json, skip: set<string>, key: string)
    requires BothObjects(before, after)
    ensures StripAt(Apply(Diff(before, after, skip), before), skip, key) == StripAt(after, skip, key)
            <==> FaithfulAt(before, after, skip, key)
    decreases before, 0
  {
    hide Diff, Leaf, IsLeaf, Apply, IsSensitive;
    var d := Diff(before, after, skip);
    DiffByKeys(before, after, skip, key);
    ApplyByKeys(d, before, key);
    LeafOrNested(before, after, skip, key);
    var b, a := Member(before, key), Member(after, key);
    if key in before.members && key in after.members && BothObjects(b, a) && key !in skip {
      ApplyRebuilds(b, a, skip);
      if key !in d {
        NothingToApply(b);
      }
    } else if key in d {
      LeafIsLeaf(key, b, a);
    }
  }

  lemma NothingToApply(v: Json)
    requires v.Obj?
    ensures Apply(map[], v) == v
  {
    assert Apply(map[], v).members == v.members;
  }

  // ---- the reverse diff -----------------------------------------------------------------------

  /** A diff with before and after exchanged in every leaf. */
  function Swapped(entry: Json): Json {
    if IsLeaf(entry) then Obj(map["before" := entry.members["after"], "after" := entry.members["before"]])
    else if entry.Obj? then Obj(map key | key in entry.members :: Swapped(entry.members[key]))
    else entry
  }

  lemma DiffIsNoLeaf(before: Json, after: Json, skip: set<string>)
    requires BothObjects(before, after)
    ensures !IsLeaf(Obj(Diff(before, after, skip)))
  {
    hide Diff;
    var d := Diff(before, after, skip);
    if d.Keys == {"before", "after"} {
      EntriesAreObjects(before, after, skip, "before");
      EntriesAreObjects(before, after, skip, "after");
    }
  }

  lemma SwappedLeaf(key: string, b: Json, a: Json)
    requires !BothObjects(b, a)
    ensures Swapped(Leaf(key, b, a)) == Leaf(key, a, b)
  {
    hide IsSensitive;
    LeafIsLeaf(key, b, a);
  }

  /** The diff of the reverse change is the diff with every leaf turned round, so one record
      serves to redo a change and to undo it. */
  lemma {:induction false} SwapReverses(before: Json, after: Json, skip: set<string>)
    requires BothObjects(before, after)
    ensures Swapped(Obj(Diff(before, after, skip))) == Obj(Diff(after, before, skip))
    decreases before, 1
  {
    hide Diff, DiffAt, IsLeaf;
    var d, r := Diff(before, after, skip), Diff(after, before, skip);
    DiffIsNoLeaf(before, after, skip);
    forall key ensures (key in d <==> key in r) && (key in d ==> Swapped(d[key]) == r[key]) {
      DiffByKeys(before, after, skip, key);
      DiffByKeys(after, before, skip, key);
      SwapReversesAt(before, after, skip, key);
    }
    assert Swapped(Obj(d)).members == r;
  }

  lemma {:induction false} SwapReversesAt(before: Json, after: Json, skip: set<string>, key: string)
    requires BothObjects(before, after)
    ensures var d, r := DiffAt(before, after, skip, key), DiffAt(after, before, skip, key);
            && (d.Some? <==> r.Some?)
            && (d.Some? ==> Swapped(d.value) == r.value)
    decreases before, 0
  {
    hide Diff, Leaf, IsLeaf, Swapped;
    var b, a := Member(before, key), Member(after, key);
    if BothObjects(b, a) {
      SwapReverses(b, a, skip);
      EmptyMeansEqual(b, a, skip);
      EmptyMeansEqual(a, b, skip);
    } else {
      SwappedLeaf(key, b, a);
    }
  }

  // ---- what a diff may tell -------------------------------------------------------------------

  /** Nothing recorded under a sensitive key and no value of a leaf holds a secret. */
  ghost predicate TellsNoSecret(diff: Json)
    decreases diff, 0
  {
    diff.Obj? ==> forall key | key in diff.members :: EntryTellsNoSecret(key, diff.members[key])
  }

  ghost predicate EntryTellsNoSecret(key: string, entry: Json)
    decreases entry, 1
  {
    if IsLeaf(entry) then
      if IsSensitive(key) then entry.members["before"] == entry.members["after"] == REDACTED
      else NoSecrets(entry.members["before"]) && NoSecrets(entry.members["after"])
    else !IsSensitive(key) && TellsNoSecret(entry)
  }

  /** The change itself hands the diff no secret: no object with a secret inside came, went or
      took the place of another kind of value, and no object under a sensitive key changed
      within. */
  ghost predicate HarmlessAt(before: Json, after: Json, skip: set<string>, key: string)
    requires BothObjects(before, after)
    decreases before, 0
  {
    var b, a := Member(before, key), Member(after, key);
    if DiffAt(before, after, skip, key) == None then true
    else if BothObjects(b, a) then !IsSensitive(key) && Harmless(b, a, skip)
    else IsSensitive(key) || (NoSecrets(b) && NoSecrets(a))
  }

  ghost predicate Harmless(before: Json, after: Json, skip: set<string>)
    requires BothObjects(before, after)
    decreases before, 1
  {
    forall key | key in before.members.Keys + after.members.Keys :: HarmlessAt(before, after, skip, key)
  }

  /** The bare result of jsonDiff keeps every secret to itself exactly when the change is
      harmless: in it a value is redacted only for the key it is directly under. */
  lemma {:induction false} DiffTellsNoSecret(before: Json, after: Json, skip: set<string>)
    requires BothObjects(before, after)
    ensures TellsNoSecret(Obj(Diff(before, after, skip))) <==> Harmless(before, after, skip)
    decreases before, 1
  {
    hide Diff, DiffAt, EntryTellsNoSecret, HarmlessAt;
    var d := Diff(before, after, skip);
    forall key
      ensures key in d ==> key in before.members.Keys + after.members.Keys
      ensures key in d ==> (EntryTellsNoSecret(key, d[key]) <==> HarmlessAt(before, after, skip, key))
      ensures key !in d ==> HarmlessAt(before, after, skip, key)
    {
      DiffByKeys(before, after, skip, key);
      TellsAt(before, after, skip, key);
    }
  }

  lemma {:induction false} TellsAt(before: Json, after: Json, skip: set<string>, key: string)
    requires BothObjects(before, after)
    ensures var entry := DiffAt(before, after, skip, key);
            && (entry.Some? ==> key in before.members.Keys + after.members.Keys)
            && (entry.Some? ==> (EntryTellsNoSecret(key, entry.value) <==> HarmlessAt(before, after, skip, key)))
            && (entry.None? ==> HarmlessAt(before, after, skip, key))
    decreases before, 0
  {
    hide Diff, Leaf, IsLeaf, IsSensitive, TellsNoSecret;
    LeafOrNested(before, after, skip, key);
    var b, a := Member(before, key), Member(after, key);
    if BothObjects(b, a) {
      DiffTellsNoSecret(b, a, skip);
    } else {
      LeafIsLeaf(key, b, a);
    }
  }

  /** The smallest case in which the bare result does hold a secret: an object with a password
      inside is added under a key that is not sensitive itself. The redaction of the whole
      payload, below, is what keeps it out of the trail. */
  lemma AddedObjectTells(name: string, key: string, secret: Json)
    requires !IsSensitive(name) && IsSensitive(key) && secret != REDACTED
    ensures var added := Obj(map[key := secret]);
            var d := Diff(Obj(map[]), Obj(map[name := added]), {});
            && name in d && d[name] == Obj(map["before" := Null, "after" := added])
            && !TellsNoSecret(Obj(d))
  {
    hide IsSensitive;
    var added := Obj(map[key := secret]);
    var before, after := Obj(map[]), Obj(map[name := added]);
    assert !NoSecrets(added);
    DiffByKeys(before, after, {}, name);
    assert !HarmlessAt(before, after, {}, name);
    DiffTellsNoSecret(before, after, {});
  }

  // ---- what is stored -------------------------------------------------------------------------

  /** The change as the trail keeps it: every caller's payload is redacted as a whole before it
      is stored. */
  function Stored(before: Json, after: Json, skip: set<string>): Json {
    Redacted(Obj(Diff(before, after, skip)))
  }

  /** No change whatever brings a secret into the trail; and redacting the whole changes the
      bare diff exactly when that held one, or told of a change under a sensitive key. */
  lemma StoredHasNoSecrets(before: Json, after: Json, skip: set<string>)
    ensures NoSecrets(Stored(before, after, skip))
    ensures Stored(before, after, skip) == Obj(Diff(before, after, skip)) <==> NoSecrets(Obj(Diff(before, after, skip)))
  {
    RedactedHasNoSecrets(Obj(Diff(before, after, skip)));
    RedactionFixpoint(Obj(Diff(before, after, skip)));
  }

  lemma PartOf(s: string, part: string, c: char)
    requires Contains(s, part) && c in part
    ensures c in s
  {
    var i :| 0 <= i <= |s| && part <= s[i..];
    var j :| 0 <= j < |part| && part[j] == c;
    assert s[i..][j] == c;
  }

  /** A letter of each sensitive word that is not in "before", and one that is not in "after". */
  const NOT_IN_BEFORE := "ppstaappmmsshhssjaass"
  const NOT_IN_AFTER := "ppsoppppmmsshhssjbuss"

  lemma PlainKeys()
    ensures !IsSensitive("before") && !IsSensitive("after")
  {
    assert Lower("before") == "before" by { LowerBefore(); }
    assert Lower("after") == "after" by { LowerAfter(); }
    forall i | 0 <= i < |SENSITIVE| ensures !Contains("before", SENSITIVE[i]) && !Contains("after", SENSITIVE[i]) {
      ForeignLetters(i);
    }
  }

  lemma ForeignLetters(i: nat)
    requires i < |SENSITIVE|
    ensures !Contains("before", SENSITIVE[i]) && !Contains("after", SENSITIVE[i])
  {
    var c, d := NOT_IN_BEFORE[i], NOT_IN_AFTER[i];
    assert c !in "before" && d !in "after";
    assert c in SENSITIVE[i] && d in SENSITIVE[i];
    if Contains("before", SENSITIVE[i]) {
      PartOf("before", SENSITIVE[i], c);
    }
    if Contains("after", SENSITIVE[i]) {
      PartOf("after", SENSITIVE[i], d);
    }
  }

  lemma LowerBefore()
    ensures Lower("before") == "before"
  {
    assert "before"[1..] == "efore" && "efore"[1..] == "fore" && "fore"[1..] == "ore" && "ore"[1..] == "re";
    assert "re"[1..] == "e" && "e"[1..] == "";
  }

  lemma LowerAfter()
    ensures Lower("after") == "after"
  {
    assert "after"[1..] == "fter" && "fter"[1..] == "ter" && "ter"[1..] == "er" && "er"[1..] == "r" && "r"[1..] == "";
  }

  lemma RedactedLeaf(key: string, b: Json, a: Json)
    requires !IsSensitive(key)
    ensures Redacted(Leaf(key, b, a)) == Leaf(key, Redacted(b), Redacted(a))
  {
    hide IsSensitive;
    PlainKeys();
    assert "before" != "after";
    assert Redacted(Leaf(key, b, a)).members == Leaf(key, Redacted(b), Redacted(a)).members;
  }

  lemma RedactedKind(v: Json)
    ensures Redacted(v).Obj? <==> v.Obj?
    ensures Redacted(v) == Null <==> v == Null
  {
  }

  lemma StoredByKeys(before: Json, after: Json, skip: set<string>, key: string)
    requires BothObjects(before, after)
    ensures var entry := DiffAt(before, after, skip, key);
            Find(Stored(before, after, skip).members, key)
            == if entry.None? then None else Some(if IsSensitive(key) then REDACTED else Redacted(entry.value))
  {
    hide IsSensitive, Diff, DiffAt;
    DiffByKeys(before, after, skip, key);
  }

  /** The stored entry of a changed member: under a sensitive key the mark alone, neither before
      nor after; otherwise a leaf with both values redacted, or the stored diff of the two
      objects; and which of the two it is can still be told. */
  lemma StoredEntry(before: Json, after: Json, skip: set<string>, key: string)
    requires BothObjects(before, after)
    ensures var entry := Find(Stored(before, after, skip).members, key);
            var b, a := Member(before, key), Member(after, key);
            && (entry.Some? <==> DiffAt(before, after, skip, key).Some?)
            && (entry.Some? && IsSensitive(key) ==> entry.value == REDACTED)
            && (entry.Some? && !IsSensitive(key) ==>
                  && (IsLeaf(entry.value) <==> !BothObjects(b, a))
                  && entry.value ==
                     if BothObjects(b, a) then Stored(b, a, skip) else Leaf(key, Redacted(b), Redacted(a)))
  {
    hide IsSensitive, Diff, DiffAt, Leaf, IsLeaf, Redacted;
    StoredByKeys(before, after, skip, key);
    LeafOrNested(before, after, skip, key);
    var b, a := Member(before, key), Member(after, key);
    if DiffAt(before, after, skip, key).Some? && !IsSensitive(key) {
      if BothObjects(b, a) {
        StoredIsNoLeaf(b, a, skip);
      } else {
        RedactedLeaf(key, b, a);
        RedactedKind(b);
        RedactedKind(a);
        LeafIsLeaf(key, Redacted(b), Redacted(a));
      }
    }
  }

  lemma StoredIsNoLeaf(before: Json, after: Json, skip: set<string>)
    requires BothObjects(before, after)
    ensures Stored(before, after, skip).Obj? && !IsLeaf(Stored(before, after, skip))
  {
    hide IsSensitive, Diff;
    PlainKeys();
    var stored := Stored(before, after, skip);
    if stored.members.Keys == {"before", "after"} {
      assert "before" in stored.members.Keys && "after" in stored.members.Keys;
      EntriesAreObjects(before, after, skip, "before");
      EntriesAreObjects(before, after, skip, "after");
      RedactedMember(Obj(Diff(before, after, skip)), "before");
      RedactedMember(Obj(Diff(before, after, skip)), "after");
      RedactedKind(Diff(before, after, skip)["before"]);
      RedactedKind(Diff(before, after, skip)["after"]);
    }
  }

  /** Turning every leaf round turns the stored diff into the stored diff of the reverse change. */
  lemma {:induction false} StoredSwapReverses(before: Json, after: Json, skip: set<string>)
    requires BothObjects(before, after)
    ensures Swapped(Stored(before, after, skip)) == Stored(after, before, skip)
    decreases before, 1
  {
    hide Diff, DiffAt, IsLeaf, IsSensitive, Redacted, Stored;
    StoredIsNoLeaf(before, after, skip);
    StoredIsNoLeaf(after, before, skip);
    var d, r := Stored(before, after, skip).members, Stored(after, before, skip).members;
    forall key ensures (key in d <==> key in r) && (key in d ==> Swapped(d[key]) == r[key]) {
      StoredSwapReversesAt(before, after, skip, key);
    }
    assert Swapped(Stored(before, after, skip)).members == r;
  }

  lemma {:induction false} StoredSwapReversesAt(before: Json, after: Json, skip: set<string>, key: string)
    requires BothObjects(before, after)
    ensures var d, r := Find(Stored(before, after, skip).members, key), Find(Stored(after, before, skip).members, key);
            && (d.Some? <==> r.Some?)
            && (d.Some? ==> Swapped(d.value) == r.value)
    decreases before, 0
  {
    hide Diff, DiffAt, Leaf, IsLeaf, IsSensitive, Redacted, Stored, Swapped;
    StoredEntry(before, after, skip, key);
    StoredEntry(after, before, skip, key);
    SwapReversesAt(before, after, skip, key);
    var b, a := Member(before, key), Member(after, key);
    MarkStays();
    if DiffAt(before, after, skip, key).Some? && !IsSensitive(key) {
      if BothObjects(b, a) {
        SomeIsMember(before, after, skip, key);
        StoredSwapReverses(b, a, skip);
      } else {
        RedactedKind(b);
        RedactedKind(a);
        SwappedLeaf(key, Redacted(b), Redacted(a));
      }
    }
  }

  lemma MarkStays()
    ensures Swapped(REDACTED) == REDACTED && !IsLeaf(REDACTED)
  {
  }

  lemma SomeIsMember(before: Json, after: Json, skip: set<string>, key: string)
    requires BothObjects(before, after) && DiffAt(before, after, skip, key).Some?
    ensures BothObjects(Member(before, key), Member(after, key)) ==> key in before.members && key in after.members
  {
  }

  /** What the stored diff still tells of a change: everything but what became of a member
      under a sensitive key that is still there, and whether a member became null or went. */
  predicate StoredFaithfulAt(before: Json, after: Json, skip: set<string>, key: string)
    requires BothObjects(before, after)
    decreases before, 0
  {
    var b, a := Member(before, key), Member(after, key);
    if DiffAt(before, after, skip, key) == None then true
    else if IsSensitive(key) then key !in after.members
    else if key in before.members && key in after.members && BothObjects(b, a) then StoredFaithful(b, a, skip)
    else key !in after.members || a != Null
  }

  predicate StoredFaithful(before: Json, after: Json, skip: set<string>)
    requires BothObjects(before, after)
    decreases before, 1
  {
    forall key | key in before.members.Keys + after.members.Keys :: StoredFaithfulAt(before, after, skip, key)
  }

  lemma {:induction false} StripRedacts(v: Json, skip: set<string>)
    ensures Strip(Redacted(v), skip) == Redacted(Strip(v, skip))
  {
    hide IsSensitive;
    match v
    case Obj(members) =>
      forall k | k in members ensures Strip(Redacted(members[k]), skip) == Redacted(Strip(members[k], skip)) {
        StripRedacts(members[k], skip);
      }
      assert Strip(Redacted(v), skip).members == Redacted(Strip(v, skip)).members;
    case Arr(items) =>
    case Null =>
    case Bool(_) =>
    case Num(_) =>
    case Str(_) =>
  }

  lemma StripAtRedacts(v: Json, skip: set<string>, key: string)
    requires v.Obj?
    ensures Redacted(v).Obj?
    ensures var s := StripAt(v, skip, key);
            StripAt(Redacted(v), skip, key)
            == if s.None? then None else Some(if IsSensitive(key) then REDACTED else Redacted(s.value))
  {
    hide IsSensitive;
    if key in v.members {
      StripRedacts(v.members[key], skip);
    }
  }

  /** The stored diff applied to the redacted old document gives the redacted new one, but for
      the skipped keys, exactly when no public member changed to null and every member changed
      under a sensitive key is gone. */
  lemma {:induction false} StoredRebuilds(before: Json, after: Json, skip: set<string>)
    requires BothObjects(before, after)
    ensures Redacted(before).Obj? && Stored(before, after, skip).Obj?
    ensures Strip(Apply(Stored(before, after, skip).members, Redacted(before)), skip) == Strip(Redacted(after), skip)
            <==> StoredFaithful(before, after, skip)
    decreases before, 1
  {
    hide Diff, DiffAt, Strip, StripAt, StoredFaithfulAt, Apply, ApplyAt, Redacted, Stored;
    RedactedKind(before);
    RedactedKind(after);
    StoredIsNoLeaf(before, after, skip);
    var rebuilt := Apply(Stored(before, after, skip).members, Redacted(before));
    ApplyIsObject(Stored(before, after, skip).members, Redacted(before));
    StripByKeys(rebuilt, Redacted(after), skip);
    forall key
      ensures StripAt(rebuilt, skip, key) == StripAt(Redacted(after), skip, key)
              <==> StoredFaithfulAt(before, after, skip, key)
    {
      StoredRebuildsAt(before, after, skip, key);
    }
    if Strip(rebuilt, skip) == Strip(Redacted(after), skip) {
      forall key | key in before.members.Keys + after.members.Keys ensures StoredFaithfulAt(before, after, skip, key) {
        assert StripAt(rebuilt, skip, key) == StripAt(Redacted(after), skip, key);
      }
    }
    if StoredFaithful(before, after, skip) {
      forall key ensures StripAt(rebuilt, skip, key) == StripAt(Redacted(after), skip, key) {
        if key !in before.members.Keys + after.members.Keys {
          ForeignIsStoredFaithful(before, after, skip, key);
        }
      }
    }
  }

  lemma ForeignIsStoredFaithful(before: Json, after: Json, skip: set<string>, key: string)
    requires BothObjects(before, after) && key !in before.members && key !in after.members
    ensures StoredFaithfulAt(before, after, skip, key)
  {
  }

  lemma {:induction false} StoredRebuildsAt(before: Json, after: Json, skip: set<string>, key: string)
    requires BothObjects(before, after)
    ensures Redacted(before).Obj? && Redacted(after).Obj? && Stored(before, after, skip).Obj?
    ensures StripAt(Apply(Stored(before, after, skip).members, Redacted(before)), skip, key)
            == StripAt(Redacted(after), skip, key)
            <==> StoredFaithfulAt(before, after, skip, key)
    decreases before, 0
  {
    hide Diff, Leaf, IsLeaf, Apply, IsSensitive, Redacted, Stored, Strip;
    RedactedKind(before);
    RedactedKind(after);
    StoredIsNoLeaf(before, after, skip);
    var d := Stored(before, after, skip).members;
    ApplyByKeys(d, Redacted(before), key);
    StoredEntry(before, after, skip, key);
    StripAtRedacts(before, skip, key);
    StripAtRedacts(after, skip, key);
    RedactedMember(before, key);
    MarkStays();
    var b, a := Member(before, key), Member(after, key);
    if DiffAt(before, after, skip, key) == None {
      EmptyAtMeansEqual(before, after, skip, key);
    } else if !IsSensitive(key) {
      if BothObjects(b, a) {
        StoredRebuilds(b, a, skip);
        StripRedacts(a, skip);
      } else {
        RedactedKind(b);
        RedactedKind(a);
        LeafIsLeaf(key, Redacted(b), Redacted(a));
        StripRedacts(a, skip);
      }
    }
  }

  lemma RedactedMember(v: Json, key: string)
    requires v.Obj?
    ensures Redacted(v).Obj?
    ensures key in Redacted(v).members <==> key in v.members
    ensures key in v.members ==>
              Redacted(v).members[key] == if IsSensitive(key) then REDACTED else Redacted(v.members[key])
  {
    hide IsSensitive;
  }

  /** Member by member: a member whose key names a secret says "[REDACTED]" and nothing else; the
      others are gone through in the same way, and none is added or dropped. */
  lemma RedactionMeans(v: Json, key: string)
    requires v.Obj?
    ensures Redacted(v).Obj? && (key in Redacted(v).members <==> key in v.members)
    ensures key in v.members ==>
              Redacted(v).members[key] == if NamesSecret(key) then Str("[REDACTED]") else Redacted(v.members[key])
  {
    hide IsSensitive, NamesSecret;
    RedactedMember(v, key);
    SensitiveMeans(key);
  }

  /** Items are gone through one by one, and anything else stays what it is. */
  lemma RedactionOfOthers(v: Json)
    ensures v.Arr? ==> Redacted(v).Arr? && |Redacted(v).items| == |v.items|
                       && forall i | 0 <= i < |v.items| :: Redacted(v).items[i] == Redacted(v.items[i])
    ensures !v.Arr? && !v.Obj? ==> Redacted(v) == v
  {
  }

  /** What the diff holds under a key: nothing if the key is skipped or says the same in both; the
      diff of the two if both are objects; otherwise what was there before and after, null where
      there was nothing, and the mark for both under a key that names a secret. */
  lemma DiffMeans(before: Json, after: Json, skip: set<string>, key: string)
    requires BothObjects(before, after)
    ensures var d := Diff(before, after, skip);
            var was, now := key in before.members, key in after.members;
            var b := if was then before.members[key] else Null;
            var a := if now then after.members[key] else Null;
            && (key in d <==> key !in skip && (was || now)
                              && (was && now ==> if b.Obj? && a.Obj? then Strip(b, skip) != Strip(a, skip) else b != a))
            && (key in d && b.Obj? && a.Obj? ==> d[key] == Obj(Diff(b, a, skip)))
            && (key in d && !(b.Obj? && a.Obj?) ==>
                  d[key] == if NamesSecret(key)
                            then Obj(map["before" := Str("[REDACTED]"), "after" := Str("[REDACTED]")])
                            else Obj(map["before" := b, "after" := a]))
  {
    hide IsSensitive, NamesSecret, Diff, Strip;
    SensitiveMeans(key);
    DiffByKeys(before, after, skip, key);
    if key in before.members && key in after.members {
      var b, a := before.members[key], after.members[key];
      if BothObjects(b, a) {
        EmptyMeansEqual(b, a, skip);
      }
    }
  }

  // ---- the two functions as they run ------------------------------------------------------------

  method RedactSensitiveKeys(v: Json) returns (r: Json)
    ensures r == Redacted(v)
    decreases v
  {
    hide IsSensitive;
    r := v;
    match v
    case Obj(members) =>
      var out := members;
      var left := members.Keys;
      while left != {}
        invariant left <= members.Keys && out.Keys == members.Keys
        invariant forall k | k in left :: out[k] == members[k]
        invariant forall k | k in members && k !in left ::
          out[k] == (if IsSensitive(k) then REDACTED else Redacted(members[k]))
        decreases |left|
      {
        var k :| k in left;
        left := left - {k};
        if IsSensitive(k) {
          out := out[k := REDACTED];
        } else {
          var inner := RedactSensitiveKeys(members[k]);
          out := out[k := inner];
        }
      }
      r := Obj(out);
      assert out == Redacted(v).members;
    case Arr(items) =>
      var out := items;
      for i := 0 to |items|
        invariant |out| == |items|
        invariant forall j | 0 <= j < |items| :: out[j] == if j < i then Redacted(items[j]) else items[j]
      {
        var inner := RedactSensitiveKeys(items[i]);
        out := out[i := inner];
      }
      r := Arr(out);
      assert out == Redacted(v).items;
    case _ =>
  }

  method DiffImpl(before: Json, after: Json, skip: set<string>) returns (out: map<string, Json>)
    ensures out == Diff(before, after, skip)
    decreases before
  {
    hide IsSensitive, Leaf;
    out := map[];
    if !BothObjects(before, after) {
      return;
    }
    var left := before.members.Keys;
    while left != {}
      invariant left <= before.members.Keys
      invariant forall k ::
        Find(out, k) == (if k in before.members && k !in left then DiffAt(before, after, skip, k) else None)
      decreases |left|
    {
      var k :| k in left;
      left := left - {k};
      if k in skip {
        continue;
      }
      var b := before.members[k];
      if k in after.members {
        var a := after.members[k];
        if BothObjects(b, a) {
          var sub := DiffImpl(b, a, skip);
          if sub != map[] {
            out := out[k := Obj(sub)];
          }
        } else if b != a {
          out := out[k := Leaf(k, b, a)];
        }
      } else {
        out := out[k := Leaf(k, b, Null)];
      }
    }
    left := after.members.Keys;
    while left != {}
      invariant left <= after.members.Keys
      invariant forall k ::
        Find(out, k) == (if k in before.members || (k in after.members && k !in left)
                         then DiffAt(before, after, skip, k) else None)
      decreases |left|
    {
      var k :| k in left;
      left := left - {k};
      if k in skip {
        continue;
      }
      if k !in before.members {
        out := out[k := Leaf(k, Null, after.members[k])];
      }
    }
    SameMap(before, after, skip, out);
  }

  lemma SameMap(before: Json, after: Json, skip: set<string>, out: map<string, Json>)
    requires BothObjects(before, after)
    requires forall k ::
      Find(out, k) == (if k in before.members || k in after.members then DiffAt(before, after, skip, k) else None)
    ensures out == Diff(before, after, skip)
  {
    hide DiffAt;
    var d := Diff(before, after, skip);
    forall k ensures (k in out <==> k in d) && (k in out ==> out[k] == d[k]) {
      DiffByKeys(before, after, skip, k);
      assert Find(out, k) == if k in before.members || k in after.members then DiffAt(before, after, skip, k) else None;
    }
  }
}
