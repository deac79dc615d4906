/** Dotted-path settings (patchi/core/config.py): the stored JSON object, its
    defaults, and set_value as a lens on what load returns. */
module Config {
  import opened Common

  datatype Json =
    | Null
    | Bool(b: bool)
    | Number(n: int)
    | String(s: string)
    | Array(items: seq<Json>)
    | Object(fields: Fields)

  type Fields = map<string, Json>

  type Path = seq<string>

  /** key.split("."): at least one part, none with a dot. */
  function Split(key: string): (parts: Path)
    ensures parts != []
    ensures forall i :: 0 <= i < |parts| ==> '.' !in parts[i]
  {
    if key == "" then [""]
    else
      var rest := Split(key[1..]);
      if key[0] == '.' then [""] + rest else [[key[0]] + rest[0]] + rest[1..]
  }

  function JoinDots(parts: Path): string {
    if parts == [] then "" else if |parts| == 1 then parts[0] else parts[0] + "." + JoinDots(parts[1..])
  }

  /** A dotted key and its parts determine each other. */
  lemma {:induction false} SplitInverts(key: string)
    ensures JoinDots(Split(key)) == key
  {
    if key != "" {
      SplitInverts(key[1..]);
      var rest := Split(key[1..]);
      if key[0] == '.' {
        assert ([""] + rest)[1..] == rest;
      } else {
        var parts := [[key[0]] + rest[0]] + rest[1..];
        assert parts[1..] == rest[1..];
        assert key == [key[0]] + key[1..];
      }
    }
  }

  /** The value at a path, if the path leads through objects to a field. */
  function Lookup(j: Json, path: Path): Option<Json> {
    if path == [] then Some(j)
    else if j.Object? && path[0] in j.fields then Lookup(j.fields[path[0]], path[1..])
    else None
  }

  /** The walk of set_value: setdefault(part, {}) on the way, assignment at the
      end. None stands for the exception raised when an existing value on the
      way is not an object. */
  function SetPath(fields: Fields, path: Path, value: Json): Option<Fields>
    requires path != []
    decreases path
  {
    var part := path[0];
    if |path| == 1 then Some(fields[part := value])
    else
      var node := if part in fields then fields[part] else Object(map[]);
      if !node.Object? then None
      else
        match SetPath(node.fields, path[1..], value)
        case None => None
        case Some(inner) => Some(fields[part := Object(inner)])
  }

  /** What load returns: the defaults, overridden field by field at the top level. */
  function Loaded(defaults: Fields, raw: Option<Fields>): Fields {
    if raw.None? then defaults else defaults + raw.value
  }

  function Field(fields: Fields, k: string): Option<Json> { if k in fields then Some(fields[k]) else None }

  class ConfigFile {
    const defaults: Fields
    var raw: Option<Fields>   // None: the file does not exist

    constructor (defaults: Fields)
      ensures this.defaults == defaults && raw == None
    {
      this.defaults := defaults;
      raw := None;
    }

    function Load(): Fields
      reads this
    {
      Loaded(defaults, raw)
    }

    /** Raises, and saves nothing, exactly when an existing value on the way is
        not an object. Else the key reads back the value, and every key that is
        neither inside nor above it reads as before. */
    method SetValue(key: string, value: Json) returns (ok: bool)
      modifies this
      ensures var after := SetPath(old(Load()), Split(key), value);
              ok == after.Some? && raw == if ok then after else old(raw)
      ensures ok <==> WayIsClear(old(Load()), Split(key))
      ensures ok ==> Lookup(Object(Load()), Split(key)) == Some(value)
      ensures ok ==>
                forall q :: !Comparable(Split(key), q) ==> Lookup(Object(Load()), q) == Lookup(Object(old(Load())), q)
    {
      var config := Load();
      SetPathSucceedsIff(config, Split(key), value);
      var updated := SetPath(config, Split(key), value);
      if updated.None? {
        return false;
      }
      SetValueIsLens(defaults, raw, Split(key), value, defaults);
      raw := updated;
      return true;
    }

    /** init_project on an existing project: every stored field wins, and a
        default fills in where none is stored. */
    method InitProject(tierDefaults: Fields) returns (merged: Fields)
      modifies this
      ensures merged == Loaded(tierDefaults, old(raw)) && raw == Some(merged)
      ensures forall k ::
                Field(merged, k) ==
                  if old(raw).Some? && k in old(raw).value then Some(old(raw).value[k]) else Field(tierDefaults, k)
    {
      merged := Loaded(tierDefaults, raw);
      raw := Some(merged);
    }
  }

  // ---- The lens laws ----

  predicate Prefix(p: Path, q: Path) { |p| <= |q| && q[..|p|] == p }

  predicate Comparable(p: Path, q: Path) { Prefix(p, q) || Prefix(q, p) }

  lemma ComparableTail(p: Path, q: Path)
    requires p != [] && q != [] && p[0] == q[0]
    ensures Comparable(p[1..], q[1..]) <==> Comparable(p, q)
  {
    assert p == [p[0]] + p[1..] && q == [q[0]] + q[1..];
    assert Prefix(p, q) ==> q[1..][..|p| - 1] == q[..|p|][1..];
    assert Prefix(q, p) ==> p[1..][..|q| - 1] == p[..|q|][1..];
    assert Prefix(p[1..], q[1..]) ==> q[..|p|] == [q[0]] + q[1..][..|p| - 1];
    assert Prefix(q[1..], p[1..]) ==> p[..|q|] == [p[0]] + p[1..][..|q| - 1];
  }

  /** Setting succeeds exactly when nothing but objects is in the way. */
  ghost predicate WayIsClear(fields: Fields, path: Path) {
    forall n :: 0 < n < |path| && Lookup(Object(fields), path[..n]).Some? ==>
      Lookup(Object(fields), path[..n]).value.Object?
  }

  lemma {:induction false} SetPathSucceedsIff(fields: Fields, path: Path, value: Json)
    requires path != []
    ensures SetPath(fields, path, value).Some? <==> WayIsClear(fields, path)
    decreases path
  {
    if |path| > 1 {
      var part, rest := path[0], path[1..];
      var node := if part in fields then fields[part] else Object(map[]);
      assert path[..1] == [part] && [part][1..] == [];
      assert Lookup(Object(fields), path[..1]) == if part in fields then Some(fields[part]) else None;
      if node.Object? {
        SetPathSucceedsIff(node.fields, rest, value);
        forall n | 0 < n < |rest|
          ensures part in fields ==> Lookup(Object(fields), path[..n + 1]) == Lookup(node, rest[..n])
          ensures part !in fields ==> Lookup(Object(fields), path[..n + 1]) == None && Lookup(node, rest[..n]) == None
        {
          assert path[..n + 1][0] == part && path[..n + 1][1..] == rest[..n];
        }
        assert forall n :: 1 < n < |path| ==> path[..n] == path[..(n - 1) + 1];
        if !WayIsClear(node.fields, rest) {
          var n :| 0 < n < |rest| && Lookup(node, rest[..n]).Some? && !Lookup(node, rest[..n]).value.Object?;
          assert Lookup(Object(fields), path[..n + 1]) == Lookup(node, rest[..n]);
        } else {
          forall n | 0 < n < |path| && Lookup(Object(fields), path[..n]).Some?
            ensures Lookup(Object(fields), path[..n]).value.Object?
          {
            if n > 1 {
              assert path[..n] == path[..(n - 1) + 1];
              assert Lookup(node, rest[..n - 1]) == Lookup(Object(fields), path[..n]);
            }
          }
        }
      }
    }
  }

  /** The path reads back the value. */
  lemma {:induction false} SetGet(fields: Fields, path: Path, value: Json)
    requires path != [] && SetPath(fields, path, value).Some?
    ensures Lookup(Object(SetPath(fields, path, value).value), path) == Some(value)
    decreases path
  {
    if |path| > 1 {
      var node := if path[0] in fields then fields[path[0]] else Object(map[]);
      SetGet(node.fields, path[1..], value);
    } else {
      assert path[1..] == [];
    }
  }

  /** Paths that are neither inside nor above the set one are unchanged. */
  lemma {:induction false} SetFrame(fields: Fields, path: Path, value: Json, q: Path)
    requires path != [] && SetPath(fields, path, value).Some? && !Comparable(path, q)
    ensures Lookup(Object(SetPath(fields, path, value).value), q) == Lookup(Object(fields), q)
    decreases path
  {
    assert q != [];
    if q[0] == path[0] {
      ComparableTail(path, q);
      if |path| > 1 {
        var node := if path[0] in fields then fields[path[0]] else Object(map[]);
        SetFrame(node.fields, path[1..], value, q[1..]);
        assert q[1..] != [] by { assert !Prefix(q[1..], path[1..]); }
      } else {
        assert Prefix(path[1..], q[1..]);
      }
    }
  }

  /** Of two sets at one path, the last counts. */
  lemma {:induction false} SetSet(fields: Fields, path: Path, first: Json, last: Json)
    requires path != [] && SetPath(fields, path, first).Some?
    ensures SetPath(SetPath(fields, path, first).value, path, last) == SetPath(fields, path, last)
    decreases path
  {
    var set1 := SetPath(fields, path, first).value;
    if |path| > 1 {
      var part := path[0];
      var node := if part in fields then fields[part] else Object(map[]);
      SetSet(node.fields, path[1..], first, last);
      var inner := SetPath(node.fields, path[1..], first).value;
      assert set1 == fields[part := Object(inner)];
      if SetPath(node.fields, path[1..], last).Some? {
        var again := SetPath(node.fields, path[1..], last).value;
        assert set1[part := Object(again)] == fields[part := Object(again)];
      }
    } else {
      assert set1[path[0] := last] == fields[path[0] := last];
    }
  }

  lemma {:induction false} SetKeepsKeys(fields: Fields, path: Path, value: Json)
    requires path != [] && SetPath(fields, path, value).Some?
    ensures fields.Keys <= SetPath(fields, path, value).value.Keys
  {
  }

  /** set_value is a lens on load. After a successful set: the path reads back
      the value, every path not comparable with it reads as before, a second
      set at the path is as if it were the only one, and a later init_project,
      whatever its default values, changes nothing - although load merges the
      defaults only at the top level. */
  lemma SetValueIsLens(defaults: Fields, raw: Option<Fields>, path: Path, value: Json, tierDefaults: Fields)
    requires path != [] && tierDefaults.Keys == defaults.Keys
    requires WayIsClear(Loaded(defaults, raw), path)
    ensures SetPath(Loaded(defaults, raw), path, value).Some?
    ensures var before, saved := Loaded(defaults, raw), SetPath(Loaded(defaults, raw), path, value);
            var after := Loaded(defaults, saved);
            && Lookup(Object(after), path) == Some(value)
            && (forall q :: !Comparable(path, q) ==> Lookup(Object(after), q) == Lookup(Object(before), q))
            && (forall w :: SetPath(after, path, w) == SetPath(before, path, w))
            && Some(Loaded(tierDefaults, saved)) == saved
            && saved == Some(after)
  {
    var before := Loaded(defaults, raw);
    SetPathSucceedsIff(before, path, value);
    var saved := SetPath(before, path, value);
    SetKeepsKeys(before, path, value);
    assert Loaded(defaults, saved) == saved.value && Loaded(tierDefaults, saved) == saved.value;
    SetGet(before, path, value);
    forall q | !Comparable(path, q)
      ensures Lookup(Object(saved.value), q) == Lookup(Object(before), q)
    {
      SetFrame(before, path, value, q);
    }
    forall w ensures SetPath(saved.value, path, w) == SetPath(before, path, w) {
      SetSet(before, path, value, w);
    }
  }
}
