/** Plugin packages, and the helpers whose source is not part of this model. */
module Plugins {
  import opened Wrappers
  import opened Text

  datatype PluginFile = PluginFile(path: string, contentBase64: string)

  datatype PluginCommand = PluginCommand(name: string, description: string)

  datatype Manifest = Manifest(name: string, version: string, disabled: bool, os: seq<string>,
                               permissions: seq<string>, commands: seq<PluginCommand>,
                               entry: string, shell: string, source: string)

  datatype Package = Package(manifest: Manifest, files: seq<PluginFile>)

  /** Helpers of package core and of the Go library, taken as parameters. */
  datatype Helpers = Helpers(
    validate: Package -> bool,
    supportsWindows: Manifest -> bool,
    base64Decode: string -> Option<seq<bv8>>,
    base64Encode: seq<bv8> -> string)

  /** What is assumed of Validate: it implies names and versions that are non-empty and trimmed. */
  ghost predicate ValidatesNames(h: Helpers) {
    forall p :: h.validate(p) ==>
      && p.manifest.name != "" && TrimSpace(p.manifest.name) == p.manifest.name
      && p.manifest.version != "" && TrimSpace(p.manifest.version) == p.manifest.version
  }

  function CommandNames(m: Manifest): seq<string> {
    seq(|m.commands|, i requires 0 <= i < |m.commands| => m.commands[i].name)
  }
}
