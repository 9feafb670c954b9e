/** The decoded add-on manifest the loaders read. */
module Manifest {
  import opened Wrappers

  /** One add-on object of the manifest. Each field the tweak and mod
      constructors look up is `None` when the object has no such key; keys
      neither constructor reads are not represented. */
  datatype Entry = Entry(
    name: Option<string>,
    description: Option<string>,
    gitUrl: Option<string>,
    directUrl: Option<string>,
    dllName: Option<string>,
    zipName: Option<string>,
    destPath: Option<string>,
    mpqName: Option<string>,
    extractAll: Option<bool>,
    zip: Option<bool>,
    release: Option<bool>,
    defaultEnabled: Option<bool>)

  /** The decoded JSON document: each top-level key with its list of add-on
      objects, in file order. */
  type Document = map<string, seq<Entry>>
}
