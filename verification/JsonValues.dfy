/** What a parsed text means: the value JSON.parse builds, and the exact-fields check on it. */
module JsonValues {
  import opened Wrappers
  import opened JsonTokens
  import opened JsonGrammar
  import opened JsonReading

  datatype Json =
    | JsonWord(word: Word)
    | JsonNumber(number: Number)
    | JsonString(text: Text)
    | JsonArray(elements: seq<Json>)
    | JsonObject(fields: map<Text, Json>)

  function Value(t: Tree): Json {
    match t
    case Leaf(x) => if x.WordScalar? then JsonWord(x.word) else JsonNumber(x.number)
    case String(ps) => JsonString(Decoded(ps))
    case Empty(kind, _) => if kind.Object? then JsonObject(map[]) else JsonArray([])
    case Container(kind, _, parts) => if kind.Object? then JsonObject(Fields(parts)) else JsonArray(Elements(parts))
  }

  function Elements(parts: Parts): seq<Json> {
    match parts
    case Last(p) => [Value(p.value)]
    case More(p, others) => [Value(p.value)] + Elements(others)
  }

  function Field(p: Part): map<Text, Json> {
    if p.name.Some? then map[Decoded(p.name.value.pieces) := Value(p.value)] else map[]
  }

  /** A later member of the same name replaces an earlier one. */
  function Fields(parts: Parts): map<Text, Json> {
    match parts
    case Last(p) => Field(p)
    case More(p, others) => Field(p) + Fields(others)
  }

  function PartAt(parts: Parts, i: nat): Part {
    match parts
    case Last(p) => p
    case More(p, others) => if i == 0 then p else PartAt(others, i - 1)
  }

  /** The elements of an array are the values of its parts, in order. */
  lemma {:induction false} ElementsInOrder(parts: Parts, i: nat)
    requires i < |Elements(parts)|
    ensures Elements(parts)[i] == Value(PartAt(parts, i).value)
    ensures |Elements(parts)| == Length(parts)
  {
    if parts.More? {
      ElementsInOrder(parts.others, if i > 0 then i - 1 else 0);
    }
  }

  function Length(parts: Parts): nat { if parts.Last? then 1 else 1 + Length(parts.others) }

  function KeySet(keys: seq<Text>): set<Text> { set k | k in keys }

  lemma {:induction false} FieldNames(parts: Parts)
    requires PartsFormed(parts, Object)
    ensures Fields(parts).Keys == KeySet(Names(parts))
  {
    if parts.More? {
      FieldNames(parts.others);
      var name := LabelNames(parts.part.name);
      assert KeySet(name + Names(parts.others)) == KeySet(name) + KeySet(Names(parts.others));
    }
  }

  /** With distinct names no member is lost: each name yields its own member's value. */
  lemma {:induction false} NoMemberIsLost(parts: Parts, i: nat)
    requires PartsFormed(parts, Object) && NoDuplicates(Names(parts)) && i < |Names(parts)|
    ensures Names(parts)[i] in Fields(parts)
    ensures Fields(parts)[Names(parts)[i]] == Value(PartAt(parts, i).value)
  {
    if parts.More? {
      MoreNames(parts);
      if i == 0 { FirstField(parts, Names(parts)[0]); }
      else {
        NoMemberIsLost(parts.others, i - 1);
        LaterField(parts, Names(parts.others)[i - 1]);
      }
    }
  }

  lemma FirstField(parts: Parts, name: Text)
    requires PartsFormed(parts, Object) && parts.More? && parts.part.name.Some?
    requires name == Decoded(parts.part.name.value.pieces) && name !in KeySet(Names(parts.others))
    ensures name in Fields(parts) && Fields(parts)[name] == Value(parts.part.value)
  {
    FieldNames(parts.others);
  }

  lemma LaterField(parts: Parts, name: Text)
    requires parts.More? && name in Fields(parts.others)
    ensures name in Fields(parts) && Fields(parts)[name] == Fields(parts.others)[name]
  {
  }

  lemma MoreNames(parts: Parts)
    requires PartsFormed(parts, Object) && parts.More? && NoDuplicates(Names(parts))
    ensures parts.part.name.Some? && |Names(parts)| == |Names(parts.others)| + 1
    ensures Names(parts)[0] == Decoded(parts.part.name.value.pieces) && Names(parts)[0] !in KeySet(Names(parts.others))
    ensures forall i :: 0 <= i < |Names(parts.others)| ==> Names(parts.others)[i] == Names(parts)[i + 1]
    ensures NoDuplicates(Names(parts.others))
  {
    var rest := Names(parts.others);
    assert forall j :: 0 <= j < |rest| ==> rest[j] == Names(parts)[j + 1];
  }

  datatype FieldsError = ExpectedObject | UnexpectedOrMissing

  function ExactObject(value: Json, keys: seq<Text>): Result<map<Text, Json>, FieldsError> {
    if !value.JsonObject? then Err(ExpectedObject)
    else if |value.fields| != |keys| || exists i :: 0 <= i < |keys| && keys[i] !in value.fields then
      Err(UnexpectedOrMissing)
    else Ok(value.fields)
  }

  lemma {:induction false} DistinctKeysCount(keys: seq<Text>)
    requires NoDuplicates(keys)
    ensures |KeySet(keys)| == |keys|
  {
    if keys != [] {
      var front := keys[..|keys| - 1];
      DistinctKeysCount(front);
      assert KeySet(keys) == KeySet(front) + {keys[|keys| - 1]};
    }
  }

  lemma SubsetOfEqualSize(a: set<Text>, b: set<Text>)
    requires a <= b && |a| == |b|
    ensures a == b
  {
    assert b == a + (b - a);
  }

  /** Counting the fields and finding each key is enough: nothing is missing and nothing is extra. */
  lemma ExactObjectIff(value: Json, keys: seq<Text>)
    requires NoDuplicates(keys)
    ensures ExactObject(value, keys).Ok? <==> value.JsonObject? && value.fields.Keys == KeySet(keys)
  {
    DistinctKeysCount(keys);
    if ExactObject(value, keys).Ok? {
      forall k | k in keys ensures k in value.fields { var i :| 0 <= i < |keys| && keys[i] == k; }
      SubsetOfEqualSize(KeySet(keys), value.fields.Keys);
    }
  }
}
