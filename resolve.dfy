/**
 * Target resolution in `Command._manage_document`: object names are checked
 * against the registered models, index names against the known indices, the
 * indices are narrowed and must all exist, and in the objects branch the
 * document classes to process are picked from the registry.
 */
module Resolve {
  import opened Wrappers
  import opened Text
  import opened Domain

  /**
   * Line 96: the registered model class names, lower-cased, in registry
   * order. These are the choices an unknown object name is reported with.
   */
  function LowerAll(names: seq<string>): (r: seq<string>)
    ensures |r| == |names| && forall i :: 0 <= i < |names| ==> r[i] == Lower(names[i])
    ensures forall x :: x in r <==> exists m :: m in names && Lower(m) == x
    ensures forall i :: 0 <= i < |r| ==> IsLower(r[i])
  {
    seq(|names|, i requires 0 <= i < |names| => Lower(names[i]))
  }

  /** Line 99: an object name is known when, lower-cased, it equals some registered model name lower-cased. */
  predicate KnownObject(name: string, models: seq<string>) {
    Lower(name) in LowerAll(models)
  }

  /** Index of the first object name that names no registered model, or `|objects|`. */
  function FirstUnknownObject(objects: seq<string>, models: seq<string>): (k: nat)
    ensures k <= |objects|
    ensures forall j :: 0 <= j < k ==> KnownObject(objects[j], models)
    ensures k < |objects| ==> !KnownObject(objects[k], models)
  {
    if objects == [] then 0
    else if !KnownObject(objects[0], models) then 0
    else 1 + FirstUnknownObject(objects[1..], models)
  }

  /**
   * Lines 95-103: the loop that fills `valid_models`. It stops at the first
   * unknown name, listing the lower-cased model names as choices; otherwise
   * `valid_models` holds the names exactly as typed.
   */
  method ValidateObjects(objects: seq<string>, models: seq<string>) returns (r: Result<seq<string>, Abort>)
    ensures r.Ok? <==> forall i :: 0 <= i < |objects| ==> KnownObject(objects[i], models)
    ensures r.Ok? ==> r.value == objects
    ensures r.Err? ==> var k := FirstUnknownObject(objects, models);
                       k < |objects| && r.error == UnknownObject(objects[k], LowerAll(models))
  {
    var registered := LowerAll(models);
    var validModels: seq<string> := [];
    for i := 0 to |objects|
      invariant validModels == objects[..i]
      invariant forall j :: 0 <= j < i ==> KnownObject(objects[j], models)
    {
      if Lower(objects[i]) in registered {
        validModels := validModels + [objects[i]];
      } else {
        var k := FirstUnknownObject(objects, models);
        assert k == i;
        return Err(UnknownObject(objects[i], registered));
      }
    }
    assert objects[..|objects|] == objects;
    return Ok(validModels);
  }

  /** Line 108: the names of the known indices, in registry order. */
  function Names(indices: seq<IndexRec>): (r: seq<string>)
    ensures |r| == |indices| && forall i :: 0 <= i < |indices| ==> r[i] == indices[i].name
    ensures forall n :: n in r <==> exists i :: 0 <= i < |indices| && indices[i].name == n
  {
    seq(|indices|, i requires 0 <= i < |indices| => indices[i].name)
  }

  /** Line 109: the requested index names that name no known index, as a set. */
  function UnknownIndexNames(requested: seq<string>, known: seq<IndexRec>): (r: set<string>)
    ensures forall n :: n in r <==> n in requested && forall i :: 0 <= i < |known| ==> known[i].name != n
    ensures r == {} <==> forall n :: n in requested ==> exists i :: 0 <= i < |known| && known[i].name == n
  {
    set n | n in requested && n !in Names(known)
  }

  /** Line 115: the known indices whose name was requested, in registry order. */
  function KeepRequested(known: seq<IndexRec>, requested: seq<string>): (r: seq<IndexRec>)
    ensures forall x :: x in r <==> x in known && x.name in requested
  {
    if known == [] then []
    else
      var last := known[|known| - 1];
      assert known == known[..|known| - 1] + [last];
      KeepRequested(known[..|known| - 1], requested) + if last.name in requested then [last] else []
  }

  /** Each kept index occurs as often as in the registry, however often its name was requested. */
  lemma {:induction false} KeepRequestedCount(known: seq<IndexRec>, requested: seq<string>, x: IndexRec)
    ensures multiset(KeepRequested(known, requested))[x] == if x.name in requested then multiset(known)[x] else 0
  {
    if known != [] {
      var p, last := known[..|known| - 1], known[|known| - 1];
      KeepRequestedCount(p, requested, x);
      assert known == p + [last];
    }
  }

  /** Keeping the requested indices commutes with concatenation, so registry order is kept. */
  lemma {:induction false} KeepRequestedAppend(a: seq<IndexRec>, b: seq<IndexRec>, requested: seq<string>)
    ensures KeepRequested(a + b, requested) == KeepRequested(a, requested) + KeepRequested(b, requested)
  {
    if b == [] {
      assert a + b == a;
    } else {
      var b', last := b[..|b| - 1], b[|b| - 1];
      var tail := if last.name in requested then [last] else [];
      KeepRequestedAppend(a, b', requested);
      assert (a + b)[..|a + b| - 1] == a + b' && (a + b)[|a + b| - 1] == last;
      assert KeepRequested(a + b, requested) == KeepRequested(a + b', requested) + tail;
      assert KeepRequested(b, requested) == KeepRequested(b', requested) + tail;
    }
  }

  /** Lines 106-117: the requested indices, or every known index when none was requested. */
  function SelectIndices(requested: seq<string>, known: seq<IndexRec>): (r: seq<IndexRec>)
    ensures requested == [] ==> r == known
    ensures forall x :: x in r <==> x in known && (requested == [] || x.name in requested)
    ensures forall x :: multiset(r)[x] <= multiset(known)[x]
  {
    if requested != [] then
      forall x ensures multiset(KeepRequested(known, requested))[x] <= multiset(known)[x] {
        KeepRequestedCount(known, requested, x);
      }
      KeepRequested(known, requested)
    else known
  }

  /**
   * With index names given, the selection is the narrowing `KeepRequested`, so
   * `KeepRequestedAppend` and `KeepRequestedCount` fix its order and multiplicity.
   */
  lemma SelectIndicesNarrows(requested: seq<string>, known: seq<IndexRec>)
    requires requested != []
    ensures SelectIndices(requested, known) == KeepRequested(known, requested)
    ensures forall x :: multiset(SelectIndices(requested, known))[x] == if x.name in requested then multiset(known)[x] else 0
  {
    forall x ensures multiset(SelectIndices(requested, known))[x] == if x.name in requested then multiset(known)[x] else 0 {
      KeepRequestedCount(known, requested, x);
    }
  }

  /** Line 120: the names of the selected indices that do not exist in the engine, in selection order. */
  function NotCreatedNames(indices: seq<IndexRec>): (r: seq<string>)
    ensures r == [] <==> forall i :: 0 <= i < |indices| ==> indices[i].created
    ensures forall n :: n in r <==> exists i :: 0 <= i < |indices| && !indices[i].created && indices[i].name == n
    ensures |r| <= |indices|
  {
    if indices == [] then []
    else
      var p := indices[..|indices| - 1];
      var last := indices[|indices| - 1];
      assert forall i :: 0 <= i < |p| ==> p[i] == indices[i];
      NotCreatedNames(p) + if last.created then [] else [last.name]
  }

  /** Listing the missing indices commutes with concatenation, so selection order is kept. */
  lemma {:induction false} NotCreatedNamesAppend(a: seq<IndexRec>, b: seq<IndexRec>)
    ensures NotCreatedNames(a + b) == NotCreatedNames(a) + NotCreatedNames(b)
  {
    if b == [] {
      assert a + b == a;
    } else {
      var b', last := b[..|b| - 1], b[|b| - 1];
      var tail := if last.created then [] else [last.name];
      NotCreatedNamesAppend(a, b');
      assert (a + b)[..|a + b| - 1] == a + b' && (a + b)[|a + b| - 1] == last;
      assert NotCreatedNames(a + b) == NotCreatedNames(a + b') + tail;
      assert NotCreatedNames(b) == NotCreatedNames(b') + tail;
    }
  }

  /**
   * `django_models` (line 131): the registered models whose lower-cased name
   * is among `valid_models`, which holds the object names AS TYPED.
   */
  function ChosenModels(models: seq<string>, validModels: seq<string>): (r: seq<string>)
    ensures forall m :: m in r <==> m in models && Lower(m) in validModels
  {
    if models == [] then []
    else
      var last := models[|models| - 1];
      assert models == models[..|models| - 1] + [last];
      ChosenModels(models[..|models| - 1], validModels) + if Lower(last) in validModels then [last] else []
  }

  /**
   * A consequence of comparing lower-cased model names with names as typed:
   * object names that each hold an upper-case letter pass validation but
   * choose no model at all.
   */
  lemma OnlyLowercaseObjectsSelect(models: seq<string>, objects: seq<string>)
    requires forall o :: o in objects ==> !IsLower(o)
    ensures ChosenModels(models, objects) == []
  {
  }

  /** All document classes the registry lists per index, index by index. */
  function Flatten(raw: seq<seq<DocMapping>>): (r: seq<DocMapping>)
    ensures forall d :: d in r <==> exists k :: 0 <= k < |raw| && d in raw[k]
  {
    if raw == [] then []
    else
      var p := raw[..|raw| - 1];
      assert forall k :: 0 <= k < |p| ==> p[k] == raw[k];
      Flatten(p) + raw[|raw| - 1]
  }

  /** Lines 134-138: the nested loop that fills `all_os_models`. */
  method CollectMappings(raw: seq<seq<DocMapping>>) returns (all: seq<DocMapping>)
    ensures all == Flatten(raw)
  {
    all := [];
    for k := 0 to |raw|
      invariant all == Flatten(raw[..k])
    {
      for j := 0 to |raw[k]|
        invariant all == Flatten(raw[..k]) + raw[k][..j]
      {
        all := all + [raw[k][j]];
        assert raw[k][..j + 1] == raw[k][..j] + [raw[k][j]];
      }
      assert raw[..k + 1][..k] == raw[..k];
      assert raw[k][..|raw[k]|] == raw[k];
    }
    assert raw[..|raw|] == raw;
  }

  /** The condition of line 141. */
  predicate MappingSelected(m: DocMapping, chosen: seq<string>, indexNames: seq<string>) {
    m.document.model in chosen && m.indexName in indexNames
  }

  /** The document classes whose model was chosen and whose index was selected, in registry order. */
  function SelectedMappings(all: seq<DocMapping>, chosen: seq<string>, indexNames: seq<string>): (r: seq<DocMapping>)
    ensures forall m :: m in r <==> m in all && MappingSelected(m, chosen, indexNames)
    ensures |r| <= |all|
  {
    if all == [] then []
    else
      var last := all[|all| - 1];
      assert all == all[..|all| - 1] + [last];
      SelectedMappings(all[..|all| - 1], chosen, indexNames) + if MappingSelected(last, chosen, indexNames) then [last] else []
  }

  /** Selecting document classes commutes with concatenation, so registry order is kept. */
  lemma {:induction false} SelectedMappingsAppend(a: seq<DocMapping>, b: seq<DocMapping>, chosen: seq<string>, indexNames: seq<string>)
    ensures SelectedMappings(a + b, chosen, indexNames) == SelectedMappings(a, chosen, indexNames) + SelectedMappings(b, chosen, indexNames)
  {
    if b == [] {
      assert a + b == a;
    } else {
      var b', last := b[..|b| - 1], b[|b| - 1];
      var tail := if MappingSelected(last, chosen, indexNames) then [last] else [];
      SelectedMappingsAppend(a, b', chosen, indexNames);
      assert (a + b)[..|a + b| - 1] == a + b' && (a + b)[|a + b| - 1] == last;
      var sa, sb' := SelectedMappings(a, chosen, indexNames), SelectedMappings(b', chosen, indexNames);
      assert SelectedMappings(a + b, chosen, indexNames) == sa + sb' + tail;
      assert SelectedMappings(b, chosen, indexNames) == sb' + tail;
      assert sa + sb' + tail == sa + (sb' + tail);
    }
  }

  /** Lines 140-142: the loop that fills `selected_os_models`. */
  method SelectMappings(all: seq<DocMapping>, chosen: seq<string>, indexNames: seq<string>) returns (selected: seq<DocMapping>)
    ensures selected == SelectedMappings(all, chosen, indexNames)
  {
    selected := [];
    for i := 0 to |all|
      invariant selected == SelectedMappings(all[..i], chosen, indexNames)
    {
      if all[i].document.model in chosen && all[i].indexName in indexNames {
        selected := selected + [all[i]];
      }
      assert all[..i + 1][..i] == all[..i];
    }
    assert all[..|all|] == all;
  }
}
