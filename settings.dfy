/** The settings sheet (ScriptletRunner/Views/SettingsView.swift): the appearance
    choice and the editing of the scan locations. */
module Settings {
  import opened Base
  import opened Locations
  import opened Collections

  /** The colour scheme SwiftUI is asked to prefer. */
  datatype ColorScheme = LightScheme | DarkScheme

  /** `AppearanceMode`, stored under its raw value. */
  datatype AppearanceMode = System | Light | Dark {
    function RawValue(): string {
      match this
      case System => "System"
      case Light => "Light"
      case Dark => "Dark"
    }

    /** `colorScheme`: no preference for the system mode. */
    function ColorScheme(): Option<ColorScheme> {
      match this
      case System => None
      case Light => Some(LightScheme)
      case Dark => Some(DarkScheme)
    }
  }

  /** `allCases`, in declaration order: the segments of the theme picker. */
  const AllModes: seq<AppearanceMode> := [System, Light, Dark]

  /** `AppearanceMode(rawValue:)`. */
  function FromRaw(raw: string): (r: Option<AppearanceMode>)
    ensures r.Some? ==> r.value.RawValue() == raw
    ensures r.None? ==> forall m :: m in AllModes ==> m.RawValue() != raw
  {
    if raw == "System" then Some(System)
    else if raw == "Light" then Some(Light)
    else if raw == "Dark" then Some(Dark)
    else None
  }

  /** Every mode is a case, the raw values are distinct, and decoding a raw value gives
      back its mode: storing a mode and reading it back is the identity. */
  lemma RawValueRoundTrip(m: AppearanceMode, n: AppearanceMode)
    ensures m in AllModes
    ensures FromRaw(m.RawValue()) == Some(m)
    ensures m.RawValue() == n.RawValue() ==> m == n
  {
    assert "System" != "Light" && "System" != "Dark" && "Light" != "Dark" by {
      assert "System"[0] != "Light"[0] && "System"[0] != "Dark"[0] && "Light"[0] != "Dark"[0];
    }
  }

  /** The stored appearance read back: `AppearanceMode(rawValue:) ?? .system`. */
  function StoredMode(raw: string): AppearanceMode {
    FromRaw(raw).GetOr(System)
  }

  /** A stored mode reads back as itself, and a value that is no mode's raw value reads
      as the system mode. */
  lemma StoredModeFallsBackToSystem(m: AppearanceMode, raw: string)
    ensures StoredMode(m.RawValue()) == m
    ensures (forall n :: n in AllModes ==> n.RawValue() != raw) ==> StoredMode(raw) == System
  {
    RawValueRoundTrip(m, m);
    if FromRaw(raw).Some? {
      RawValueRoundTrip(FromRaw(raw).value, m);
    }
  }

  /** Only the system mode leaves the scheme open, and the two others ask for different
      schemes. */
  lemma ColorSchemeSeparatesModes(m: AppearanceMode, n: AppearanceMode)
    ensures m.ColorScheme().None? <==> m == System
    ensures m.ColorScheme() == n.ColorScheme() ==> m == n
  {
  }

  function LocationHasPath(path: string): ScanLocation -> bool {
    (l: ScanLocation) => l.path == path
  }

  function LocationHasId(id: Uuid): ScanLocation -> bool {
    (l: ScanLocation) => l.id == id
  }

  /** No two locations share a folder. */
  predicate DistinctPaths(ls: seq<ScanLocation>) {
    forall i, j :: 0 <= i < j < |ls| ==> ls[i].path != ls[j].path
  }

  /** The list after the folder importer returns: on success the first chosen folder
      becomes a new location unless a location with its path exists; a failure
      (`None`) changes nothing. `id` is the new location's `UUID()`. */
  function WithFolder(locations: seq<ScanLocation>, picked: Option<seq<string>>, id: Uuid): seq<ScanLocation> {
    if picked.None? || picked.value == [] then locations
    else if ContainsWhere(locations, LocationHasPath(picked.value[0])) then locations
    else locations + [NewLocation(id, picked.value[0])]
  }

  /** Adding appends one location exactly when the folder is new, and afterwards the
      folder is listed; paths that were distinct stay distinct. */
  lemma WithFolderAddsNewPathOnly(locations: seq<ScanLocation>, picked: Option<seq<string>>, id: Uuid)
    ensures picked.Some? && picked.value != [] ==>
              (WithFolder(locations, picked, id) != locations
               <==> forall k :: 0 <= k < |locations| ==> locations[k].path != picked.value[0])
    ensures WithFolder(locations, picked, id) == locations
            || (picked.Some? && picked.value != []
                && WithFolder(locations, picked, id) == locations + [NewLocation(id, picked.value[0])])
    ensures picked.Some? && picked.value != [] ==>
              ContainsWhere(WithFolder(locations, picked, id), LocationHasPath(picked.value[0]))
    ensures DistinctPaths(locations) ==> DistinctPaths(WithFolder(locations, picked, id))
  {
    var r := WithFolder(locations, picked, id);
    if picked.Some? && picked.value != [] {
      var path := picked.value[0];
      if !ContainsWhere(locations, LocationHasPath(path)) {
        assert r[|locations|].path == path;
        assert |r| != |locations|;
      }
    }
  }

  /** Choosing the same folder again adds nothing. */
  lemma AddingFolderTwiceAddsOnce(locations: seq<ScanLocation>, path: string, id: Uuid, id': Uuid)
    ensures WithFolder(WithFolder(locations, Some([path]), id), Some([path]), id')
            == WithFolder(locations, Some([path]), id)
  {
    WithFolderAddsNewPathOnly(locations, Some([path]), id);
  }

  /** The list after "Remove": the first location with the selection's id is removed. */
  function LocationsAfterRemove(locations: seq<ScanLocation>, selected: Option<ScanLocation>): seq<ScanLocation> {
    if selected.None? then locations
    else
      match FirstIndex(locations, LocationHasId(selected.value.id))
      case None => locations
      case Some(i) => RemoveAt(locations, i)
  }

  /** The selection after "Remove": cleared only when something was removed. */
  function SelectionAfterRemove(locations: seq<ScanLocation>, selected: Option<ScanLocation>): Option<ScanLocation> {
    if selected.Some? && ContainsWhere(locations, LocationHasId(selected.value.id)) then None else selected
  }

  /** With nothing selected, or a selection no longer listed, "Remove" does nothing;
      otherwise it removes the first location with the selected id, keeps the others in
      order and clears the selection. */
  lemma RemoveDeletesSelected(locations: seq<ScanLocation>, selected: Option<ScanLocation>)
    ensures selected.None? || !ContainsWhere(locations, LocationHasId(selected.value.id)) ==>
              LocationsAfterRemove(locations, selected) == locations
              && SelectionAfterRemove(locations, selected) == selected
    ensures selected.Some? && ContainsWhere(locations, LocationHasId(selected.value.id)) ==>
              SelectionAfterRemove(locations, selected).None?
              && exists i :: 0 <= i < |locations| && locations[i].id == selected.value.id
                            && (forall j :: 0 <= j < i ==> locations[j].id != selected.value.id)
                            && LocationsAfterRemove(locations, selected) == locations[..i] + locations[i + 1..]
    ensures DistinctPaths(locations) ==> DistinctPaths(LocationsAfterRemove(locations, selected))
  {
    if selected.Some? {
      match FirstIndex(locations, LocationHasId(selected.value.id))
      case None =>
      case Some(i) =>
        RemoveAtDropsOnlyIt(locations, i);
        var r := RemoveAt(locations, i);
        if DistinctPaths(locations) {
          forall a, b | 0 <= a < b < |r| ensures r[a].path != r[b].path {
            var a' := if a < i then a else a + 1;
            var b' := if b < i then b else b + 1;
            assert r[a] == locations[a'] && r[b] == locations[b'];
          }
        }
    }
  }

  /** `deleteLocations(at:)` keeps exactly the locations at the other offsets, in order,
      and so keeps distinct paths distinct. */
  lemma DeleteLocationsKeepsOthers(locations: seq<ScanLocation>, offsets: set<nat>)
    requires forall i :: i in offsets ==> i < |locations|
    ensures var kept := Positions(|locations|, Outside(offsets));
            |RemoveOffsets(locations, offsets)| == |kept|
            && (forall k :: 0 <= k < |kept| ==> RemoveOffsets(locations, offsets)[k] == locations[kept[k]])
            && (forall i: nat :: i in kept <==> i < |locations| && i !in offsets)
    ensures DistinctPaths(locations) ==> DistinctPaths(RemoveOffsets(locations, offsets))
  {
    RemoveOffsetsKeepsOthers(locations, offsets);
  }

  function Enabled(on: bool): ScanLocation -> ScanLocation {
    (l: ScanLocation) => l.(isEnabled := on)
  }

  function Recursive(on: bool): ScanLocation -> ScanLocation {
    (l: ScanLocation) => l.(recursive := on)
  }

  /** A row's toggles write through the location's binding, so they never change a path. */
  lemma TogglesKeepPaths(locations: seq<ScanLocation>, id: Uuid, on: bool)
    ensures DistinctPaths(locations) ==> DistinctPaths(UpdateFirst(locations, LocationHasId(id), Enabled(on)))
    ensures DistinctPaths(locations) ==> DistinctPaths(UpdateFirst(locations, LocationHasId(id), Recursive(on)))
  {
    UpdateFirstChangesFirstMatch(locations, LocationHasId(id), Enabled(on));
    UpdateFirstChangesFirstMatch(locations, LocationHasId(id), Recursive(on));
    KeepsPathsPreservesDistinct(locations, UpdateFirst(locations, LocationHasId(id), Enabled(on)));
    KeepsPathsPreservesDistinct(locations, UpdateFirst(locations, LocationHasId(id), Recursive(on)));
  }

  lemma KeepsPathsPreservesDistinct(a: seq<ScanLocation>, b: seq<ScanLocation>)
    requires |a| == |b| && forall k :: 0 <= k < |a| ==> a[k].path == b[k].path
    ensures DistinctPaths(a) ==> DistinctPaths(b)
  {
  }

  /** The sheet's state: the bound locations and appearance, and the list selection. */
  class SettingsView {
    var locations: seq<ScanLocation>
    var appearanceMode: AppearanceMode
    var selectedLocation: Option<ScanLocation>

    constructor(locations: seq<ScanLocation>, appearanceMode: AppearanceMode)
      ensures this.locations == locations && this.appearanceMode == appearanceMode
      ensures selectedLocation.None?
    {
      this.locations := locations;
      this.appearanceMode := appearanceMode;
      selectedLocation := None;
    }

    /** The folder importer's completion. */
    method AddFolder(picked: Option<seq<string>>, id: Uuid)
      modifies this
      ensures locations == WithFolder(old(locations), picked, id)
      ensures appearanceMode == old(appearanceMode) && selectedLocation == old(selectedLocation)
    {
      if picked.Some? && picked.value != [] {
        var newLocation := NewLocation(id, picked.value[0]);
        if FirstIndex(locations, LocationHasPath(newLocation.path)).None? {
          locations := locations + [newLocation];
        }
      }
    }

    /** The "Remove" button. */
    method RemoveSelected()
      modifies this
      ensures locations == LocationsAfterRemove(old(locations), old(selectedLocation))
      ensures selectedLocation == SelectionAfterRemove(old(locations), old(selectedLocation))
      ensures appearanceMode == old(appearanceMode)
    {
      if selectedLocation.Some? {
        var index := FirstIndex(locations, LocationHasId(selectedLocation.value.id));
        if index.Some? {
          locations := RemoveAt(locations, index.value);
          selectedLocation := None;
        }
      }
    }

    /** Swipe-to-delete; the selection is left as it is. */
    method DeleteLocations(offsets: set<nat>)
      requires forall i :: i in offsets ==> i < |locations|
      modifies this
      ensures locations == RemoveOffsets(old(locations), offsets)
      ensures appearanceMode == old(appearanceMode) && selectedLocation == old(selectedLocation)
    {
      locations := RemoveOffsets(locations, offsets);
    }

    /** A row's "enabled" toggle, written through `binding(for:)`. */
    method SetEnabled(id: Uuid, on: bool)
      modifies this
      ensures locations == UpdateFirst(old(locations), LocationHasId(id), Enabled(on))
      ensures appearanceMode == old(appearanceMode) && selectedLocation == old(selectedLocation)
    {
      locations := UpdateFirst(locations, LocationHasId(id), Enabled(on));
    }

    /** A row's "Recursive" toggle. */
    method SetRecursive(id: Uuid, on: bool)
      modifies this
      ensures locations == UpdateFirst(old(locations), LocationHasId(id), Recursive(on))
      ensures appearanceMode == old(appearanceMode) && selectedLocation == old(selectedLocation)
    {
      locations := UpdateFirst(locations, LocationHasId(id), Recursive(on));
    }
  }
}
