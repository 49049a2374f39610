/**
 * The settings store: the selected audio input and output devices in a JSON
 * object on disk, regenerated from the system's default devices when the
 * file is missing or empty. The same file also carries copies of the
 * permission functions, which behave exactly as the permission store's.
 */
module Settings {
  import opened Json
  import opened Wrappers
  import Permissions

  const InputKey: string := "audioInputDeviceSelection"
  const OutputKey: string := "audioOutputDeviceSelection"

  /**
   * The object `create_settings` writes: the names of the default input and
   * output devices, under exactly the two selection keys.
   */
  function DefaultSettings(inputDevice: string, outputDevice: string): (r: Json)
    ensures r.Object? && r.fields.Keys == {InputKey, OutputKey}
    ensures Index(r, InputKey) == Str(inputDevice) && Index(r, OutputKey) == Str(outputDevice)
    ensures r != EmptyObject
  {
    Object(map[InputKey := Str(inputDevice), OutputKey := Str(outputDevice)])
  }

  /** `create_settings`: the file now holds the default devices. */
  method CreateSettings(file: JsonFile, inputDevice: string, outputDevice: string)
    modifies file
    ensures file.contents == Some(DefaultSettings(inputDevice, outputDevice))
  {
    file.Write(DefaultSettings(inputDevice, outputDevice));
  }

  /** `update_settings`: the new object is written unless it is the empty object. */
  method UpdateSettings(file: JsonFile, settings: Json)
    modifies file
    ensures file.contents == if settings == EmptyObject then old(file.contents) else Some(settings)
  {
    file.WriteUnlessEmpty(settings);
  }

  /**
   * `get_settings`: a missing file or an empty object is replaced by the
   * default devices, which are then returned; any other value is returned
   * as it is.
   */
  method GetSettings(file: JsonFile, inputDevice: string, outputDevice: string) returns (r: Json)
    modifies file
    ensures r == Regenerated(old(file.contents), DefaultSettings(inputDevice, outputDevice))
    ensures file.contents == Some(r)
  {
    r := file.ReadOrRegenerate(DefaultSettings(inputDevice, outputDevice));
  }

  /** After regeneration the settings name the default devices under the two keys. */
  lemma RegeneratedSettings(contents: Option<Json>, inputDevice: string, outputDevice: string)
    requires NeedsRegeneration(contents)
    ensures var r := Regenerated(contents, DefaultSettings(inputDevice, outputDevice));
            r.Object? && r.fields.Keys == {InputKey, OutputKey}
            && Index(r, InputKey) == Str(inputDevice) && Index(r, OutputKey) == Str(outputDevice)
  {
  }

  /** `create_permissions` in the settings file, the same as the permission store's. */
  method CreatePermissions(file: JsonFile)
    modifies file
    ensures file.contents == Some(Permissions.DefaultPermissions)
  {
    Permissions.CreatePermissions(file);
  }

  /** `update_permissions` in the settings file. */
  method UpdatePermissions(file: JsonFile, permissions: Json)
    modifies file
    ensures file.contents == if permissions == EmptyObject then old(file.contents) else Some(permissions)
  {
    Permissions.UpdatePermissions(file, permissions);
  }

  /** `get_permissions` in the settings file. */
  method GetPermissions(file: JsonFile) returns (r: Json)
    modifies file
    ensures r == Regenerated(old(file.contents), Permissions.DefaultPermissions)
    ensures file.contents == Some(r)
  {
    r := Permissions.GetPermissions(file);
  }

  /** `check_permissions`, the same check as the permission store's `check`. */
  method CheckPermissions(file: JsonFile, required: seq<Permissions.Permission>) returns (r: Outcome<Option<string>>)
    modifies file
    ensures file.contents == Some(Regenerated(old(file.contents), Permissions.DefaultPermissions))
    ensures r == Permissions.CheckResult(Regenerated(old(file.contents), Permissions.DefaultPermissions), required)
  {
    r := Permissions.Check(file, required);
  }
}
