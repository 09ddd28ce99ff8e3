/** The compression chosen for a batch's load file (`getDataCompression`).
    Only the choice and the file-extension tag are modelled; the GZIP and LZ4
    compressors themselves are foreign libraries. */
module Compression {
  import opened Common
  import opened Text

  datatype Compression = Gzip | Lz4 | Skip

  /** The configuration name that selects each compression, in lower case. */
  function Name(c: Compression): string {
    match c
    case Gzip => "gzip"
    case Lz4 => "lz4"
    case Skip => "skip"
  }

  /** The extension of the virtual file named in the load statement; the
      server picks its decompressor from it. */
  function Ext(c: Compression): (ext: string)
    ensures ext in {"gz", "lz4", "tsv"}
  {
    match c
    case Gzip => "gz"
    case Lz4 => "lz4"
    case Skip => "tsv"
  }

  /** The decompressor the server associates with a file extension. */
  function FromExt(ext: string): (r: Option<Compression>)
    ensures r.Some? ==> Ext(r.value) == ext
  {
    if ext == "gz" then Some(Gzip)
    else if ext == "lz4" then Some(Lz4)
    else if ext == "tsv" then Some(Skip)
    else None
  }

  function InvalidMessage(name: string): string {
    "Invalid data compression type. Type " + name + " doesn't exist"
  }

  /** `getDataCompression`: the name is compared after lower-casing; an
      unknown name is an IllegalArgumentException quoting the name as given. */
  function ParseCompression(name: string): (r: Result<Compression, string>)
    ensures r.Success? <==> ToLower(name) in {"gzip", "lz4", "skip"}
    ensures r.Success? ==> Name(r.value) == ToLower(name)
    ensures r.Failure? ==> r.error == InvalidMessage(name)
  {
    var lower := ToLower(name);
    if lower == "gzip" then Success(Gzip)
    else if lower == "lz4" then Success(Lz4)
    else if lower == "skip" then Success(Skip)
    else Failure(InvalidMessage(name))
  }

  /** Each compression's own name selects it. */
  lemma ParseName(c: Compression)
    ensures ParseCompression(Name(c)) == Success(c)
  {
  }

  /** Case does not matter: a name and its lower-cased form select the same
      compression, or are both rejected. */
  lemma ParseIgnoresCase(name: string)
    ensures ParseCompression(name).Success? == ParseCompression(ToLower(name)).Success?
    ensures ParseCompression(name).Success? ==>
              ParseCompression(name).value == ParseCompression(ToLower(name)).value
  {
    ToLowerIdempotent(name);
  }

  /** The extension names exactly the compression it came from. */
  lemma ExtRoundTrip(c: Compression)
    ensures FromExt(Ext(c)) == Some(c)
  {
  }
}
