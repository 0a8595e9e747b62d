/** The two transforms every stored tool input and output goes through: values under sensitive keys
    are redacted, then text leaves are scrubbed. Properties are stated by paths into the tree. */
module JsonScrub {
  import opened TextScrub
  import opened Wrappers

  datatype Json =
    | Null
    | Bool(b: bool)
    | Number(n: Numeral)
    | Str(text: Text)
    | Arr(items: seq<Json>)
    | Obj(fields: seq<Field>)

  /** Numbers pass through both transforms; a not-a-number or an infinity is no JSON number. */
  datatype Numeral = Finite(literal: string) | NotFinite

  datatype Field = Field(key: Text, value: Json)

  /** The replacement text, in code points. */
  const REDACTED: Text :=
    [42, 42, 42, 82, 69, 68, 65, 67, 84, 69, 68, 42, 42, 42]

  // ----- the transforms ----------------------------------------------------------------------------

  /** `hidden` says whether a key, lower-cased, is in the set of sensitive keys. */
  function Redact(v: Json, hidden: Text -> bool): Json {
    match v
    case Arr(items) => Arr(seq(|items|, i requires 0 <= i < |items| => Redact(items[i], hidden)))
    case Obj(fields) => Obj(seq(|fields|, i requires 0 <= i < |fields| => RedactField(fields[i], hidden)))
    case _ => v
  }

  function RedactField(f: Field, hidden: Text -> bool): Field {
    Field(f.key, if hidden(f.key) then Str(REDACTED) else Redact(f.value, hidden))
  }

  /** Text leaves are scrubbed; the keys of objects are not. */
  function Sanitize(v: Json): Json {
    match v
    case Str(text) => Str(SanitizeText(text))
    case Arr(items) => Arr(seq(|items|, i requires 0 <= i < |items| => Sanitize(items[i])))
    case Obj(fields) => Obj(seq(|fields|, i requires 0 <= i < |fields| => SanitizeField(fields[i])))
    case _ => v
  }

  function SanitizeField(f: Field): Field {
    Field(f.key, Sanitize(f.value))
  }

  // ----- algebra -----------------------------------------------------------------------------------

  lemma {:induction false} RedactIsIdempotent(v: Json, hidden: Text -> bool)
    ensures Redact(Redact(v, hidden), hidden) == Redact(v, hidden)
  {
    match v
    case Arr(items) =>
      forall i | 0 <= i < |items| { RedactIsIdempotent(items[i], hidden); }
      assert Redact(Redact(v, hidden), hidden).items == Redact(v, hidden).items;
    case Obj(fields) =>
      forall i | 0 <= i < |fields| { RedactIsIdempotent(fields[i].value, hidden); }
      assert Redact(Redact(v, hidden), hidden).fields == Redact(v, hidden).fields;
    case _ =>
  }

  lemma {:induction false} SanitizeIsIdempotent(v: Json)
    ensures Sanitize(Sanitize(v)) == Sanitize(v)
  {
    match v
    case Str(text) => ScrubIsIdentityIffWellFormed(text);
    case Arr(items) =>
      forall i | 0 <= i < |items| { SanitizeIsIdempotent(items[i]); }
      assert Sanitize(Sanitize(v)).items == Sanitize(v).items;
    case Obj(fields) =>
      forall i | 0 <= i < |fields| { SanitizeIsIdempotent(fields[i].value); }
      assert Sanitize(Sanitize(v)).fields == Sanitize(v).fields;
    case _ =>
  }

  lemma {:induction false} RedactedTextStays()
    ensures Sanitize(Str(REDACTED)) == Str(REDACTED)
    ensures REDACTED == seq(14, i => "***REDACTED***"[i % 14] as int)
  {
    assert forall i :: 0 <= i < |REDACTED| ==> REDACTED[i] != NUL && !IsLone(REDACTED, i);
  }

  /** The order of the two passes makes no difference. */
  lemma {:induction false} PassesCommute(v: Json, hidden: Text -> bool)
    ensures Sanitize(Redact(v, hidden)) == Redact(Sanitize(v), hidden)
  {
    match v
    case Arr(items) =>
      forall i | 0 <= i < |items| ensures Sanitize(Redact(items[i], hidden)) == Redact(Sanitize(items[i]), hidden) {
        PassesCommute(items[i], hidden);
      }
      assert Sanitize(Redact(v, hidden)).items == Redact(Sanitize(v), hidden).items;
    case Obj(fields) =>
      forall i | 0 <= i < |fields|
        ensures SanitizeField(RedactField(fields[i], hidden)) == RedactField(SanitizeField(fields[i]), hidden)
      {
        PassesCommute(fields[i].value, hidden);
        RedactedTextStays();
      }
      assert Sanitize(Redact(v, hidden)).fields == Redact(Sanitize(v), hidden).fields;
    case _ =>
  }

  // ----- paths -------------------------------------------------------------------------------------

  /** A path gives, level by level, the position of an item or of a field. */
  type Path = seq<nat>

  function Child(v: Json, i: nat): Option<Json> {
    match v
    case Arr(items) => if i < |items| then Some(items[i]) else None
    case Obj(fields) => if i < |fields| then Some(fields[i].value) else None
    case _ => None
  }

  function At(v: Json, p: Path): Option<Json>
    decreases |p|
  {
    if p == [] then Some(v)
    else match Child(v, p[0])
         case None => None
         case Some(w) => At(w, p[1..])
  }

  predicate EntersHidden(v: Json, i: nat, hidden: Text -> bool) {
    v.Obj? && i < |v.fields| && hidden(v.fields[i].key)
  }

  /** Where the path first goes through a sensitive key, as the number of levels above that value. */
  function FirstHidden(v: Json, p: Path, hidden: Text -> bool): Option<nat>
    decreases |p|
  {
    if p == [] then None
    else if EntersHidden(v, p[0], hidden) then Some(1)
    else match Child(v, p[0])
         case None => None
         case Some(w) =>
           match FirstHidden(w, p[1..], hidden)
           case None => None
           case Some(k) => Some(k + 1)
  }

  /** At any depth: the value under a sensitive key is the redaction text and nothing lies below it;
      every other path leads to the redaction of what it led to before. */
  lemma {:induction false} RedactionByPath(v: Json, p: Path, hidden: Text -> bool)
    ensures match FirstHidden(v, p, hidden)
            case None =>
              At(Redact(v, hidden), p) == (if At(v, p).None? then None else Some(Redact(At(v, p).value, hidden)))
            case Some(k) => At(Redact(v, hidden), p) == (if k == |p| then Some(Str(REDACTED)) else None)
    decreases |p|
  {
    if p != [] {
      match Child(v, p[0]) {
        case None =>
        case Some(w) =>
          RedactionByPath(w, p[1..], hidden);
          if EntersHidden(v, p[0], hidden) && |p| > 1 {
            assert Child(Redact(v, hidden), p[0]) == Some(Str(REDACTED));
            assert At(Str(REDACTED), p[1..]).None?;
          }
      }
    }
  }

  // ----- what a redacted tree still says ------------------------------------------------------------

  /** One level of a tree: a leaf itself, the number of items, or the keys of the fields. */
  datatype Outline = Leaf(leaf: Json) | Items(count: nat) | Keys(keys: seq<Text>)

  function KeysOf(fields: seq<Field>): (r: seq<Text>)
    ensures |r| == |fields| && forall i :: 0 <= i < |fields| ==> r[i] == fields[i].key
  {
    seq(|fields|, i requires 0 <= i < |fields| => fields[i].key)
  }

  function OutlineOf(v: Json): Outline {
    match v
    case Arr(items) => Items(|items|)
    case Obj(fields) => Keys(KeysOf(fields))
    case _ => Leaf(v)
  }

  /** What can be seen of a tree along a path that goes through no sensitive key. */
  function Observe(v: Json, p: Path, hidden: Text -> bool): Option<Outline>
    decreases |p|
  {
    if p == [] then Some(OutlineOf(v))
    else if EntersHidden(v, p[0], hidden) then None
    else match Child(v, p[0])
         case None => None
         case Some(w) => Observe(w, p[1..], hidden)
  }

  lemma {:induction false} RedactionKeepsObservations(v: Json, p: Path, hidden: Text -> bool)
    ensures Observe(Redact(v, hidden), p, hidden) == Observe(v, p, hidden)
    decreases |p|
  {
    if p == [] {
      if v.Obj? { assert KeysOf(Redact(v, hidden).fields) == KeysOf(v.fields); }
    } else {
      match Child(v, p[0])
      case None =>
      case Some(w) => RedactionKeepsObservations(w, p[1..], hidden);
    }
  }

  /** The scrub keeps the whole shape of a tree, keys included; only text leaves change, each on its own. */
  lemma {:induction false} ScrubByPath(v: Json, p: Path, hidden: Text -> bool)
    ensures Observe(Sanitize(v), p, hidden) ==
            match Observe(v, p, hidden)
            case Some(Leaf(Str(text))) => Some(Leaf(Str(SanitizeText(text))))
            case seen => seen
    decreases |p|
  {
    if p == [] {
      if v.Obj? { assert KeysOf(Sanitize(v).fields) == KeysOf(v.fields); }
    } else {
      match Child(v, p[0])
      case None =>
      case Some(w) => ScrubByPath(w, p[1..], hidden);
    }
  }

  ghost predicate LookAlike(a: Json, b: Json, hidden: Text -> bool) {
    forall p :: Observe(a, p, hidden) == Observe(b, p, hidden)
  }

  /** Non-interference, both ways: two trees have the same redaction exactly when they cannot be told
      apart along paths outside the sensitive keys. */
  lemma {:induction false} RedactionShowsExactlyTheRest(a: Json, b: Json, hidden: Text -> bool)
    ensures Redact(a, hidden) == Redact(b, hidden) <==> LookAlike(a, b, hidden)
  {
    if Redact(a, hidden) == Redact(b, hidden) {
      forall p ensures Observe(a, p, hidden) == Observe(b, p, hidden) {
        RedactionKeepsObservations(a, p, hidden);
        RedactionKeepsObservations(b, p, hidden);
      }
    } else if LookAlike(a, b, hidden) {
      SameObservationsSameRedaction(a, b, hidden);
    }
  }

  lemma {:induction false} SameObservationsSameRedaction(a: Json, b: Json, hidden: Text -> bool)
    requires LookAlike(a, b, hidden)
    ensures Redact(a, hidden) == Redact(b, hidden)
    decreases a
  {
    assert Observe(a, [], hidden) == Observe(b, [], hidden);
    match a
    case Arr(items) =>
      forall i | 0 <= i < |items| ensures Redact(items[i], hidden) == Redact(b.items[i], hidden) {
        BelowLooksTheSame(a, b, i, hidden);
        SameObservationsSameRedaction(items[i], b.items[i], hidden);
      }
    case Obj(fields) =>
      assert KeysOf(fields) == KeysOf(b.fields);
      forall i | 0 <= i < |fields| ensures RedactField(fields[i], hidden) == RedactField(b.fields[i], hidden) {
        assert KeysOf(fields)[i] == KeysOf(b.fields)[i];
        if !hidden(fields[i].key) {
          BelowLooksTheSame(a, b, i, hidden);
          SameObservationsSameRedaction(fields[i].value, b.fields[i].value, hidden);
        }
      }
    case _ =>
  }

  lemma BelowLooksTheSame(a: Json, b: Json, i: nat, hidden: Text -> bool)
    requires LookAlike(a, b, hidden)
    requires Child(a, i).Some? && Child(b, i).Some?
    requires !EntersHidden(a, i, hidden) && !EntersHidden(b, i, hidden)
    ensures LookAlike(Child(a, i).value, Child(b, i).value, hidden)
  {
    forall p ensures Observe(Child(a, i).value, p, hidden) == Observe(Child(b, i).value, p, hidden) {
      var q := [i] + p;
      assert q[1..] == p;
      assert Observe(a, q, hidden) == Observe(b, q, hidden);
    }
  }

  // ----- what can be stored --------------------------------------------------------------------------

  /** A JSON column takes a tree exactly when every text in it, keys included, is well-formed and every
      number is finite. */
  predicate Storable(v: Json) {
    match v
    case Number(n) => n.Finite?
    case Str(text) => WellFormed(text)
    case Arr(items) => forall i :: 0 <= i < |items| ==> Storable(items[i])
    case Obj(fields) => forall i :: 0 <= i < |fields| ==> WellFormed(fields[i].key) && Storable(fields[i].value)
    case _ => true
  }

  /** The leaves only: what the scrub promises to leave alone. */
  predicate LeavesWellFormed(v: Json) {
    match v
    case Str(text) => WellFormed(text)
    case Arr(items) => forall i :: 0 <= i < |items| ==> LeavesWellFormed(items[i])
    case Obj(fields) => forall i :: 0 <= i < |fields| ==> LeavesWellFormed(fields[i].value)
    case _ => true
  }

  /** The scrub changes a tree exactly when one of its text leaves could not be stored. */
  lemma {:induction false} ScrubIsIdentityIffLeavesAre(v: Json)
    ensures Sanitize(v) == v <==> LeavesWellFormed(v)
  {
    match v
    case Str(text) => ScrubIsIdentityIffWellFormed(text);
    case Arr(items) =>
      forall i | 0 <= i < |items| ensures Sanitize(v).items[i] == items[i] <==> LeavesWellFormed(items[i]) {
        ScrubIsIdentityIffLeavesAre(items[i]);
      }
    case Obj(fields) =>
      forall i | 0 <= i < |fields|
        ensures Sanitize(v).fields[i] == fields[i] <==> LeavesWellFormed(fields[i].value)
      {
        ScrubIsIdentityIffLeavesAre(fields[i].value);
      }
    case _ =>
  }

  /** What can be seen at one place is neither a malformed key nor a number that is not finite. */
  predicate Acceptable(o: Option<Outline>) {
    match o
    case Some(Keys(keys)) => forall i :: 0 <= i < |keys| ==> WellFormed(keys[i])
    case Some(Leaf(leaf)) => leaf.Number? ==> leaf.n.Finite?
    case _ => true
  }

  /** Nothing in sight outside the sensitive subtrees stands in the way of storing. */
  ghost predicate SeenAcceptable(v: Json, hidden: Text -> bool) {
    forall p :: Acceptable(Observe(v, p, hidden))
  }

  /** The stored form of an arbitrary tree can be written exactly when, outside the sensitive subtrees, no
      key is malformed and no number is without a finite value: texts never get in the way. */
  lemma {:induction false} StoredFormIsStorableIff(v: Json, hidden: Text -> bool)
    ensures Storable(Sanitize(Redact(v, hidden))) <==> SeenAcceptable(v, hidden)
  {
    SeenSplit(v, hidden);
    match v
    case Str(text) => ScrubbedIsWellFormed(text);
    case Arr(items) =>
      var s := Sanitize(Redact(v, hidden)).items;
      forall i | 0 <= i < |items| ensures Storable(s[i]) <==> SeenAcceptable(items[i], hidden) {
        StoredFormIsStorableIff(items[i], hidden);
      }
      assert forall i :: 0 <= i < |items| ==> Child(v, i) == Some(items[i]);
    case Obj(fields) =>
      forall i | 0 <= i < |fields|
        ensures Storable(Sanitize(Redact(fields[i].value, hidden))) <==> SeenAcceptable(fields[i].value, hidden)
      {
        StoredFormIsStorableIff(fields[i].value, hidden);
      }
      FieldsStorable(v, hidden);
    case _ =>
  }

  predicate FieldStorable(f: Field) {
    WellFormed(f.key) && Storable(f.value)
  }

  lemma FieldsStorable(v: Json, hidden: Text -> bool)
    requires v.Obj?
    requires forall i :: 0 <= i < |v.fields| ==>
      (Storable(Sanitize(Redact(v.fields[i].value, hidden))) <==> SeenAcceptable(v.fields[i].value, hidden))
    ensures Storable(Sanitize(Redact(v, hidden))) <==> SeenAcceptable(v, hidden)
  {
    SeenSplit(v, hidden);
    var fields := v.fields;
    var s := Sanitize(Redact(v, hidden)).fields;
    forall i | 0 <= i < |s|
      ensures FieldStorable(s[i]) <==>
        WellFormed(KeysOf(fields)[i]) && (hidden(fields[i].key) || SeenAcceptable(fields[i].value, hidden))
    {
      OneFieldStorable(fields[i], hidden);
    }
    assert Storable(Obj(s)) <==> forall i :: 0 <= i < |s| ==> FieldStorable(s[i]);
    assert forall i: nat :: Child(v, i).Some? <==> i < |fields|;
    assert forall i: nat :: i < |fields| ==> Child(v, i).value == fields[i].value;
  }

  lemma OneFieldStorable(f: Field, hidden: Text -> bool)
    requires Storable(Sanitize(Redact(f.value, hidden))) <==> SeenAcceptable(f.value, hidden)
    ensures FieldStorable(SanitizeField(RedactField(f, hidden))) <==>
      WellFormed(f.key) && (hidden(f.key) || SeenAcceptable(f.value, hidden))
  {
    RedactedTextStays();
    ScrubbedIsWellFormed(REDACTED);
  }

  /** What is seen along all paths is what is seen at the root and along all paths below each child. */
  lemma SeenSplit(v: Json, hidden: Text -> bool)
    ensures SeenAcceptable(v, hidden) <==>
      && Acceptable(Some(OutlineOf(v)))
      && (forall i: nat :: Child(v, i).Some? && !EntersHidden(v, i, hidden) ==>
            SeenAcceptable(Child(v, i).value, hidden))
  {
    if SeenAcceptable(v, hidden) {
      assert Acceptable(Observe(v, [], hidden));
      forall i: nat, p: Path | Child(v, i).Some? && !EntersHidden(v, i, hidden)
        ensures Acceptable(Observe(Child(v, i).value, p, hidden))
      {
        var q := [i] + p;
        assert q[1..] == p;
        assert Acceptable(Observe(v, q, hidden));
      }
    } else {
      var p :| !Acceptable(Observe(v, p, hidden));
      if p != [] {
        assert !Acceptable(Observe(Child(v, p[0]).value, p[1..], hidden));
      }
    }
  }

  /** The documented promise, that a write can never fail, does not hold: a NUL in a key stays. */
  lemma {:induction false} MalformedKeyCannotBeStored(hidden: Text -> bool)
    requires !hidden([NUL])
    ensures !Storable(Sanitize(Redact(Obj([Field([NUL], Null)]), hidden)))
  {
    var v := Obj([Field([NUL], Null)]);
    assert Sanitize(Redact(v, hidden)).fields[0].key == [NUL];
  }
}
