/** A folder the scanner looks in (ScriptletRunner/Models/ScanLocation.swift). */
module Locations {
  import opened Base
  import opened Paths

  datatype ScanLocation = ScanLocation(
    id: Uuid,
    path: string,
    locationLabel: string,
    isEnabled: bool,
    recursive: bool)

  /** The initialiser with its defaults: the label falls back to the folder's name, and a
      new location is enabled and recursive. `id` is the freshly drawn `UUID()`. */
  function NewLocation(
    id: Uuid,
    path: string,
    locationLabel: Option<string> := None,
    isEnabled: bool := true,
    recursive: bool := true): (l: ScanLocation)
    ensures l.id == id && l.path == path
    ensures locationLabel.Some? ==> l.locationLabel == locationLabel.value
    ensures locationLabel.None? ==> l.locationLabel == LastPathComponent(path)
    ensures l.isEnabled == isEnabled && l.recursive == recursive
  {
    ScanLocation(id, path, locationLabel.GetOr(LastPathComponent(path)), isEnabled, recursive)
  }
}
