/** The bounding-box normalizer: coerces a field to the shape
    `{present, bbox}`, filling a record that is passed in place. */
module BBox {
  import opened Values

  /** The default box `[0, 0, 0, 0]`. */
  const ZeroBox: Value := List([Int(0), Int(0), Int(0), Int(0)])

  /** Python's `v == 0` on the modelled shapes (`False == 0` holds too). */
  predicate IsZero(v: Value) {
    v == Int(0) || v == Bool(false)
  }

  /** Python's `v == [0, 0, 0, 0]`: a four-entry list of zeros, the zero box
      itself among them. */
  predicate IsZeroBox(v: Value): (z: bool)
    ensures z ==> v.List? && |v.items| == 4
    ensures v == ZeroBox ==> z
    ensures v.List? && |v.items| == 4 && !IsZero(v.items[0]) ==> !z
  {
    v.List? && |v.items| == 4 && forall i :: 0 <= i < 4 ==> IsZero(v.items[i])
  }

  /** The record returned for a missing or unusable field. */
  function DefaultEntries(): (r: map<string, Value>)
    ensures r.Keys == {"present", "bbox"}
    ensures r["present"] == Bool(false) && IsZeroBox(r["bbox"])
  {
    map["present" := Bool(false), "bbox" := ZeroBox]
  }

  /** `validate_bbox` on a non-empty list: the record is present, and the
      list is its box only when it has four entries. */
  function ListEntries(xs: seq<Value>): (r: map<string, Value>)
    ensures r.Keys == {"present", "bbox"} && r["present"] == Bool(true)
    ensures r["bbox"] == List(xs) <==> |xs| == 4
  {
    map["present" := Bool(true), "bbox" := if |xs| == 4 then List(xs) else ZeroBox]
  }

  /** `validate_bbox` on a non-empty dict's contents: a missing `bbox` becomes the
      zero box, then a missing `present` says whether the box is non-zero;
      every entry already there is kept. */
  function FilledEntries(m: map<string, Value>): (r: map<string, Value>)
    ensures r.Keys == m.Keys + {"bbox", "present"}
    ensures forall k :: k in m ==> r[k] == m[k]
    ensures "bbox" !in m ==> r["bbox"] == ZeroBox
    ensures "present" !in m ==> r["present"] == Bool(!IsZeroBox(r["bbox"]))
  {
    var withBox := if "bbox" in m then m else m["bbox" := ZeroBox];
    if "present" in withBox then withBox
    else withBox["present" := Bool(!IsZeroBox(withBox["bbox"]))]
  }

  /** `validate_bbox` on values: the record it returns for a field. */
  function Validated(v: Value): (r: map<string, Value>)
    ensures "present" in r && "bbox" in r
  {
    if !Truthy(v) then DefaultEntries()
    else
      match v
      case List(xs) => ListEntries(xs)
      case Dict(m) => FilledEntries(m)
      case _ => DefaultEntries()
  }

  /** A Python dict object: `validate_bbox` fills it in place and returns
      the object itself, so its identity matters. */
  class DictObject {
    var entries: map<string, Value>

    constructor (entries: map<string, Value>)
      ensures this.entries == entries
    {
      this.entries := entries;
    }

    /** `validate_bbox` on a non-empty dict: store the missing keys into
        this record. */
    method FillMissing()
      modifies this
      ensures entries == FilledEntries(old(entries))
    {
      if "bbox" !in entries {
        entries := entries["bbox" := ZeroBox];
      }
      if "present" !in entries {
        entries := entries["present" := Bool(!IsZeroBox(entries["bbox"]))];
      }
    }
  }

  /** Values that are not dicts; a dict is passed as an object. */
  type NonDict = v: Value | !v.Dict? witness Absent

  /** The argument of `validate_bbox`. */
  datatype FieldData = Plain(v: NonDict) | Mapping(obj: DictObject)

  function Objects(field: FieldData): set<DictObject> {
    if field.Mapping? then {field.obj} else {}
  }

  /** The value the argument currently holds. */
  function ValueOf(field: FieldData): Value
    reads Objects(field)
  {
    match field
    case Plain(v) => v
    case Mapping(obj) => Dict(obj.entries)
  }

  /** `validate_bbox`: a falsy or unusable field gets a fresh default
      record, a list a fresh record built from it, and a non-empty dict is
      filled in place and returned itself. */
  method ValidateBBox(field: FieldData) returns (r: DictObject)
    modifies Objects(field)
    ensures r.entries == Validated(old(ValueOf(field)))
    ensures field.Mapping? && Truthy(old(ValueOf(field))) ==> r == field.obj
    ensures !(field.Mapping? && Truthy(old(ValueOf(field)))) ==> fresh(r)
    ensures !(field.Mapping? && Truthy(old(ValueOf(field)))) ==> unchanged(Objects(field))
  {
    if !Truthy(ValueOf(field)) {
      r := new DictObject(DefaultEntries());
      return;
    }
    match field
    case Plain(v) =>
      if v.List? {
        r := new DictObject(ListEntries(v.items));
      } else {
        r := new DictObject(DefaultEntries());
      }
    case Mapping(obj) =>
      obj.FillMissing();
      r := obj;
  }

  // ---------------------------------------------------------------------
  // Properties
  // ---------------------------------------------------------------------

  /** A falsy field and a field of another shape get the default record. */
  lemma ValidatedDefault(v: Value)
    requires !Truthy(v) || !(v.List? || v.Dict?)
    ensures Validated(v) == DefaultEntries()
    ensures Validated(v)["present"] == Bool(false) && IsZeroBox(Validated(v)["bbox"])
  {
  }

  /** A non-empty list is always marked present, even when it is not a
      four-entry box. */
  lemma ValidatedList(xs: seq<Value>)
    requires xs != []
    ensures Validated(List(xs))["present"] == Bool(true)
    ensures Validated(List(xs))["bbox"] == if |xs| == 4 then List(xs) else ZeroBox
  {
  }

  /** A non-empty dict keeps all its entries; only missing keys are added,
      and a derived `present` is true exactly when the box is non-zero. */
  lemma ValidatedDict(m: map<string, Value>)
    requires |m| != 0
    ensures var r := Validated(Dict(m));
      && r.Keys == m.Keys + {"bbox", "present"}
      && (forall k :: k in m ==> r[k] == m[k])
      && ("present" !in m ==> (r["present"] == Bool(true) <==> "bbox" in m && !IsZeroBox(m["bbox"])))
  {
  }

  /** Normalizing a normalized record changes nothing. */
  lemma {:induction false} ValidatedIdempotent(v: Value)
    ensures Validated(Dict(Validated(v))) == Validated(v)
  {
    var r := Validated(v);
    assert "present" in r;
    assert FilledEntries(r) == r;
  }

  /** Examples of the normalizer. */
  lemma ValidatedExamples()
    ensures Validated(Absent) == DefaultEntries()
    ensures Validated(List([Int(1), Int(2), Int(3), Int(4)]))
         == map["present" := Bool(true), "bbox" := List([Int(1), Int(2), Int(3), Int(4)])]
    ensures Validated(List([Int(1), Int(2), Int(3)])) == map["present" := Bool(true), "bbox" := ZeroBox]
    ensures Validated(Dict(map[])) == DefaultEntries()
    ensures Validated(Dict(map["bbox" := List([Int(1), Int(1), Int(1), Int(1)])]))
         == map["bbox" := List([Int(1), Int(1), Int(1), Int(1)]), "present" := Bool(true)]
  {
    var one := List([Int(1), Int(1), Int(1), Int(1)]);
    assert !IsZero(one.items[0]);
    assert FilledEntries(map["bbox" := one]) == map["bbox" := one, "present" := Bool(true)];
  }
}
