/** Scrubbing stored protocol payloads: secret-like keys are redacted at every level and nesting
    is cut off, and doing it again on the way out changes nothing. */
module PayloadScrub {
  import opened Common
  import opened Ascii

  datatype Json =
    | Null | Bool(b: bool) | Num(n: int) | Str(s: string)
    | Arr(items: seq<Json>)
    | Obj(fields: seq<Field>)

  datatype Field = Field(key: string, value: Json)

  const MAX_SCRUB_DEPTH: nat := 20
  const MAX_PAYLOAD_JSON_LENGTH: nat := 4000
  const REDACTED := Str("[REDACTED]")
  const TRUNCATED := Str("[TRUNCATED]")

  predicate SecretLike(key: string) {
    var lower := ToLower(key);
    Contains(lower, "secret") || Contains(lower, "password") || Contains(lower, "authorization")
      || Contains(lower, "token")
  }

  /** A key is secret-like exactly when one of the four words occurs in it, in any casing. */
  lemma SecretLikeIff(key: string)
    ensures SecretLike(key) <==>
      exists p: string, w: string, q: string ::
        key == p + w + q && ToLower(w) in {"secret", "password", "authorization", "token"}
  {
    forall p: string, w: string, q: string
      | key == p + w + q && ToLower(w) in {"secret", "password", "authorization", "token"}
      ensures SecretLike(key)
    {
      WordOccurs(key, p, w, q);
    }
    if SecretLike(key) {
      var lower := ToLower(key);
      var word := if Contains(lower, "secret") then "secret" else if Contains(lower, "password") then "password"
                  else if Contains(lower, "authorization") then "authorization" else "token";
      var p, w, q := WordFound(key, word);
    }
  }

  lemma WordOccurs(key: string, p: string, w: string, q: string)
    requires key == p + w + q
    ensures Contains(ToLower(key), ToLower(w))
  {
    assert ToLower(key)[|p|..|p| + |w|] == ToLower(w);
    assert OccursAt(ToLower(key), ToLower(w), |p|);
  }

  lemma WordFound(key: string, word: string) returns (p: string, w: string, q: string)
    requires Contains(ToLower(key), word)
    ensures key == p + w + q && ToLower(w) == word
  {
    var i :| 0 <= i <= |ToLower(key)| && OccursAt(ToLower(key), word, i);
    p, w, q := key[..i], key[i..i + |word|], key[i + |word|..];
    assert ToLower(w) == ToLower(key)[i..i + |word|];
  }

  predicate Container(p: Json) {
    p.Arr? || p.Obj?
  }

  // ---------------------------------------------------------------- what scrubbing computes

  ghost function Scrubbed(p: Json, depth: nat): Json
    decreases p
  {
    if !Container(p) then p
    else if depth >= MAX_SCRUB_DEPTH then TRUNCATED
    else if p.Arr? then Arr(seq(|p.items|, i requires 0 <= i < |p.items| => Scrubbed(p.items[i], depth + 1)))
    else Obj(seq(|p.fields|, i requires 0 <= i < |p.fields| => ScrubbedField(p.fields[i], depth)))
  }

  ghost function ScrubbedField(f: Field, depth: nat): Field
    decreases f
  {
    Field(f.key, if SecretLike(f.key) then REDACTED else Scrubbed(f.value, depth + 1))
  }

  /** The recursive pass, filling a result item by item. */
  method ScrubPayload(p: Json, depth: nat) returns (r: Json)
    ensures r == Scrubbed(p, depth)
    decreases p
  {
    if !Container(p) { return p; }
    if depth >= MAX_SCRUB_DEPTH { return TRUNCATED; }
    if p.Arr? {
      var items: seq<Json> := [];
      for i := 0 to |p.items|
        invariant |items| == i && forall k :: 0 <= k < i ==> items[k] == Scrubbed(p.items[k], depth + 1)
      {
        var item := ScrubPayload(p.items[i], depth + 1);
        items := items + [item];
      }
      assert items == Scrubbed(p, depth).items;
      r := Arr(items);
    } else {
      var fields: seq<Field> := [];
      for i := 0 to |p.fields|
        invariant |fields| == i && forall k :: 0 <= k < i ==> fields[k] == ScrubbedField(p.fields[k], depth)
      {
        var key := p.fields[i].key;
        if SecretLike(key) {
          fields := fields + [Field(key, REDACTED)];
        } else {
          var value := ScrubPayload(p.fields[i].value, depth + 1);
          fields := fields + [Field(key, value)];
        }
      }
      assert fields == Scrubbed(p, depth).fields;
      r := Obj(fields);
    }
  }

  // ---------------------------------------------------------------- clean payloads

  /** Nothing left to do at this depth: no container past the ceiling, and every secret-like key
      already redacted. */
  ghost predicate Clean(p: Json, depth: nat)
    decreases p
  {
    match p
    case Arr(items) => depth < MAX_SCRUB_DEPTH && forall i :: 0 <= i < |items| ==> Clean(items[i], depth + 1)
    case Obj(fields) => depth < MAX_SCRUB_DEPTH && forall i :: 0 <= i < |fields| ==> CleanField(fields[i], depth)
    case _ => true
  }

  ghost predicate CleanField(f: Field, depth: nat)
    decreases f
  {
    if SecretLike(f.key) then f.value == REDACTED else Clean(f.value, depth + 1)
  }

  lemma {:induction false} ScrubbedIsClean(p: Json, depth: nat)
    ensures Clean(Scrubbed(p, depth), depth)
    decreases p
  {
    if depth < MAX_SCRUB_DEPTH {
      if p.Arr? {
        forall i | 0 <= i < |p.items| ensures Clean(Scrubbed(p, depth).items[i], depth + 1) {
          ScrubbedIsClean(p.items[i], depth + 1);
        }
      } else if p.Obj? {
        forall i | 0 <= i < |p.fields| ensures CleanField(Scrubbed(p, depth).fields[i], depth) {
          ScrubbedIsClean(p.fields[i].value, depth + 1);
        }
      }
    }
  }

  /** Scrubbing changes exactly the payloads that are not clean. */
  lemma {:induction false} UnchangedIffClean(p: Json, depth: nat)
    ensures Scrubbed(p, depth) == p <==> Clean(p, depth)
    decreases p
  {
    if p.Arr? && depth < MAX_SCRUB_DEPTH {
      forall i | 0 <= i < |p.items|
        ensures Scrubbed(p.items[i], depth + 1) == p.items[i] <==> Clean(p.items[i], depth + 1)
      {
        UnchangedIffClean(p.items[i], depth + 1);
      }
      assert Clean(p, depth) ==> Scrubbed(p, depth).items == p.items;
      assert Scrubbed(p, depth) == p ==> forall i :: 0 <= i < |p.items| ==> Scrubbed(p, depth).items[i] == p.items[i];
    } else if p.Obj? && depth < MAX_SCRUB_DEPTH {
      forall i | 0 <= i < |p.fields|
        ensures ScrubbedField(p.fields[i], depth) == p.fields[i] <==> CleanField(p.fields[i], depth)
      {
        UnchangedIffClean(p.fields[i].value, depth + 1);
      }
      assert Clean(p, depth) ==> Scrubbed(p, depth).fields == p.fields;
      assert Scrubbed(p, depth) == p ==> forall i :: 0 <= i < |p.fields| ==>
        Scrubbed(p, depth).fields[i] == p.fields[i];
    }
  }

  lemma ScrubIdempotent(p: Json, depth: nat)
    ensures Scrubbed(Scrubbed(p, depth), depth) == Scrubbed(p, depth)
  {
    ScrubbedIsClean(p, depth);
    UnchangedIffClean(Scrubbed(p, depth), depth);
  }

  // ---------------------------------------------------------------- every place in the tree

  ghost function ChildCount(p: Json): nat {
    if p.Arr? then |p.items| else if p.Obj? then |p.fields| else 0
  }

  ghost function Child(p: Json, i: nat): Json
    requires i < ChildCount(p)
  {
    if p.Arr? then p.items[i] else p.fields[i].value
  }

  ghost predicate SecretChild(p: Json, i: nat)
    requires i < ChildCount(p)
  {
    p.Obj? && SecretLike(p.fields[i].key)
  }

  /** The subtree reached by following child positions, if the path exists. */
  ghost function At(p: Json, path: seq<nat>): Option<Json> {
    if path == [] then Some(p)
    else if path[0] >= ChildCount(p) then None
    else At(Child(p, path[0]), path[1..])
  }

  /** The path steps through a secret-like key. */
  ghost predicate ThroughSecret(p: Json, path: seq<nat>) {
    path != [] && path[0] < ChildCount(p) && (SecretChild(p, path[0]) || ThroughSecret(Child(p, path[0]), path[1..]))
  }

  /** Reading the scrubbed tree at any place off the secret keys and within the ceiling gives the
      scrubbed subtree at that place: scalars survive unchanged, and nothing else appears. */
  lemma {:induction false} ScrubbedAt(p: Json, path: seq<nat>, depth: nat)
    requires !ThroughSecret(p, path) && depth + |path| <= MAX_SCRUB_DEPTH
    ensures At(Scrubbed(p, depth), path) ==
      match At(p, path) case None => None case Some(v) => Some(Scrubbed(v, depth + |path|))
    decreases |path|
  {
    if path != [] && path[0] < ChildCount(p) {
      ScrubbedAt(Child(p, path[0]), path[1..], depth + 1);
    }
  }

  lemma ScrubbedChild(p: Json, i: nat, depth: nat)
    requires i < ChildCount(Scrubbed(p, depth))
    ensures depth < MAX_SCRUB_DEPTH && i < ChildCount(p)
    ensures SecretChild(Scrubbed(p, depth), i) == SecretChild(p, i)
    ensures Child(Scrubbed(p, depth), i) == if SecretChild(p, i) then REDACTED else Scrubbed(Child(p, i), depth + 1)
  {
  }

  /** Wherever a path of the scrubbed tree passes a secret-like key, it reads the marker and
      goes no further. */
  lemma {:induction false} SecretsRedacted(p: Json, path: seq<nat>, depth: nat)
    ensures var r := Scrubbed(p, depth);
      ThroughSecret(r, path) && At(r, path).Some? ==> At(r, path).value == Str("[REDACTED]")
    decreases |path|
  {
    if path != [] && path[0] < ChildCount(Scrubbed(p, depth)) {
      ScrubbedChild(p, path[0], depth);
      if SecretChild(p, path[0]) {
        assert ChildCount(Str("[REDACTED]")) == 0;
      } else {
        SecretsRedacted(Child(p, path[0]), path[1..], depth + 1);
      }
    }
  }

  /** No path of a scrubbed tree is longer than the ceiling. */
  lemma {:induction false} NestingBounded(p: Json, path: seq<nat>, depth: nat)
    requires depth <= MAX_SCRUB_DEPTH && At(Scrubbed(p, depth), path).Some?
    ensures depth + |path| <= MAX_SCRUB_DEPTH
    decreases |path|
  {
    if path != [] {
      ScrubbedChild(p, path[0], depth);
      if SecretChild(p, path[0]) {
        assert ChildCount(REDACTED) == 0;
        assert At(REDACTED, path[1..]).Some?;
      } else {
        NestingBounded(Child(p, path[0]), path[1..], depth + 1);
      }
    }
  }

  // ---------------------------------------------------------------- the bounded read model

  const UNSERIALIZABLE := Obj([Field("truncated", Bool(true)), Field("reason", Str("unserializable"))])

  function Preview(json: string): Json
    requires |json| > MAX_PAYLOAD_JSON_LENGTH
  {
    Obj([Field("truncated", Bool(true)), Field("originalLength", Num(|json|)),
         Field("preview", Str(json[..MAX_PAYLOAD_JSON_LENGTH]))])
  }

  ghost function Bounded(scrubbed: Json, stringify: Json -> Option<string>): Json {
    match stringify(scrubbed)
    case None => UNSERIALIZABLE
    case Some(json) => if |json| <= MAX_PAYLOAD_JSON_LENGTH then scrubbed else Preview(json)
  }

  /** The response body: the scrubbed payload, a preview when its text is too long, or a note that
      it has no text. The text form is whatever the serialiser produces, if it does. */
  method BoundPayload(p: Json, stringify: Json -> Option<string>) returns (r: Json)
    ensures r == Bounded(Scrubbed(p, 0), stringify)
    ensures Clean(r, 0)
    ensures match stringify(Scrubbed(p, 0))
            case None => r == Obj([Field("truncated", Bool(true)), Field("reason", Str("unserializable"))])
            case Some(json) =>
              if |json| <= 4000 then r == Scrubbed(p, 0)
              else r == Obj([Field("truncated", Bool(true)), Field("originalLength", Num(|json|)),
                             Field("preview", Str(json[..4000]))])
  {
    var scrubbed := ScrubPayload(p, 0);
    BodyIsClean(p, stringify);
    match stringify(scrubbed) {
      case None => r := UNSERIALIZABLE;
      case Some(json) => r := if |json| <= MAX_PAYLOAD_JSON_LENGTH then scrubbed else Preview(json);
    }
  }

  /** A text without a word's first two letters in a row does not contain the word. */
  lemma NoStart(lower: string, word: string)
    requires |word| >= 2 && forall i :: 0 <= i < |lower| - 1 ==> [lower[i], lower[i + 1]] != word[..2]
    ensures !Contains(lower, word)
  {
    forall i: nat ensures !OccursAt(lower, word, i) {
      assert i + |word| <= |lower| ==> lower[i..i + |word|][..2] == [lower[i], lower[i + 1]];
    }
  }

  lemma PlainWithoutStarts(key: string, lower: string)
    requires lower == ToLower(key)
    requires forall i :: 0 <= i < |lower| - 1 ==> [lower[i], lower[i + 1]] !in ["se", "pa", "au", "to"]
    ensures !SecretLike(key)
  {
    assert "secret"[..2] == "se" && "password"[..2] == "pa" && "authorization"[..2] == "au" && "token"[..2] == "to";
    assert "se" in ["se", "pa", "au", "to"] && "pa" in ["se", "pa", "au", "to"]
        && "au" in ["se", "pa", "au", "to"] && "to" in ["se", "pa", "au", "to"];
    NoStart(lower, "secret");
    NoStart(lower, "password");
    NoStart(lower, "authorization");
    NoStart(lower, "token");
  }

  /** None of the body's own keys looks secret. */
  lemma OwnKeysPlain(key: string)
    requires key in {"truncated", "reason", "originalLength", "preview"}
    ensures !SecretLike(key)
  {
    PlainWithoutStarts(key, ToLower(key));
  }

  /** Whatever the body turns out to be, no secret-like key of it has an unredacted value. */
  lemma BodyIsClean(p: Json, stringify: Json -> Option<string>)
    ensures Clean(Bounded(Scrubbed(p, 0), stringify), 0)
  {
    ScrubbedIsClean(p, 0);
    OwnKeysPlain("truncated");
    OwnKeysPlain("reason");
    OwnKeysPlain("originalLength");
    OwnKeysPlain("preview");
  }

  /** A clean payload whose text fits is returned as it is. */
  lemma FittingIsReturned(p: Json, stringify: Json -> Option<string>)
    requires Clean(p, 0) && stringify(p).Some? && |stringify(p).value| <= 4000
    ensures Bounded(Scrubbed(p, 0), stringify) == p
  {
    UnchangedIffClean(p, 0);
  }

  /** Reading a stored payload gives the same body as bounding the original would have. */
  lemma StoredReadsAsOriginal(original: Json, stringify: Json -> Option<string>)
    ensures var stored := Scrubbed(original, 0);
      Bounded(Scrubbed(stored, 0), stringify) == Bounded(Scrubbed(original, 0), stringify)
  {
    ScrubIdempotent(original, 0);
  }
}
