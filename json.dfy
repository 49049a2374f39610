/**
 * The subset of `serde_json::Value` the core manipulates, the indexing
 * operators it uses, and a JSON file on disk viewed as its parsed contents.
 */
module Json {
  import opened Wrappers

  /** A JSON value. Numbers are integers: the core never stores fractions. */
  datatype Json =
    | Null
    | Bool(b: bool)
    | Number(n: int)
    | Str(s: string)
    | Array(items: seq<Json>)
    | Object(fields: map<string, Json>)

  /** `Value::Object(Map::new())`, the empty object. */
  const EmptyObject: Json := Object(map[])

  /** `value[key]`: the field when `value` is an object holding `key`, `Null` otherwise. */
  function Index(v: Json, key: string): (r: Json)
    ensures r != Null ==> v.Object? && key in v.fields && r == v.fields[key]
    ensures v.Object? && key in v.fields ==> r == v.fields[key]
  {
    if v.Object? && key in v.fields then v.fields[key] else Null
  }

  /** `value.get(key)`: `None` unless `value` is an object holding `key`. */
  function Get(v: Json, key: string): (r: Option<Json>)
    ensures r.Some? <==> v.Object? && key in v.fields
    ensures r.Some? ==> r.value == v.fields[key]
  {
    if v.Object? && key in v.fields then Some(v.fields[key]) else None
  }

  /** `value.as_bool()`. */
  function AsBool(v: Json): (r: Option<bool>)
    ensures r.Some? <==> v.Bool?
    ensures r.Some? ==> r.value == v.b
  {
    if v.Bool? then Some(v.b) else None
  }

  /**
   * A JSON file at a fixed path. `contents` is `None` when the file does not
   * exist and otherwise the value it parses to.
   */
  class JsonFile {
    var contents: Option<Json>

    constructor (contents: Option<Json>)
      ensures this.contents == contents
    {
      this.contents := contents;
    }

    /** `fs::write(path, to_string_pretty(v))`: the file now holds `v`. */
    method Write(v: Json)
      modifies this
      ensures contents == Some(v)
    {
      contents := Some(v);
    }

    /**
     * The guard of every `update_*` writer: a value equal to the empty
     * object is not written, anything else replaces the contents.
     */
    method WriteUnlessEmpty(v: Json)
      modifies this
      ensures contents == if v == EmptyObject then old(contents) else Some(v)
    {
      if v != EmptyObject {
        Write(v);
      }
    }

    /**
     * The shape of every `get_*` reader: when the file is missing or holds
     * the empty object, `defaults` is written and the file is read again;
     * otherwise its value is returned. Defaults that are not themselves the
     * empty object make the second read return them.
     */
    method ReadOrRegenerate(defaults: Json) returns (r: Json)
      requires defaults != EmptyObject
      modifies this
      ensures r == Regenerated(old(contents), defaults)
      ensures contents == Some(r)
      decreases if NeedsRegeneration(contents) then 1 else 0
    {
      if contents.None? || contents == Some(EmptyObject) {
        Write(defaults);
        r := ReadOrRegenerate(defaults);
      } else {
        r := contents.value;
      }
    }
  }

  /** What a reader returns for the given file contents. */
  function Regenerated(contents: Option<Json>, defaults: Json): (r: Json)
    ensures NeedsRegeneration(contents) ==> r == defaults
    ensures !NeedsRegeneration(contents) ==> Some(r) == contents
  {
    if NeedsRegeneration(contents) then defaults else contents.value
  }

  /** A reader never hands out the empty object, whatever the file held. */
  lemma RegeneratedNotEmpty(contents: Option<Json>, defaults: Json)
    requires defaults != EmptyObject
    ensures Regenerated(contents, defaults) != EmptyObject
  {
  }

  /** Reading a file a reader has already settled regenerates nothing. */
  lemma RegeneratedStable(contents: Option<Json>, defaults: Json)
    requires defaults != EmptyObject
    ensures Regenerated(Some(Regenerated(contents, defaults)), defaults) == Regenerated(contents, defaults)
  {
  }

  /**
   * The regeneration rule shared by every `get_*` reader: a file that is
   * missing, or that holds the empty object, is rebuilt from defaults.
   */
  predicate NeedsRegeneration(contents: Option<Json>)
  {
    contents.None? || contents == Some(EmptyObject)
  }
}
