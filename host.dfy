/** The collaborators the core calls but does not implement, and the path join
    it uses. Each collaborator is an uninterpreted function value: the model
    assumes nothing about it beyond its type. */
module Host {
  import opened Wrappers
  import opened Text

  /** A SHA-256 digest (FIPS 180-4): always 32 bytes. */
  type Digest = d: Bytes | |d| == 32 witness seq(32, _ => 0)

  datatype Env = Env(
    /** `Sha256::new().update(data).finalize()`. */
    sha256: Bytes -> Digest,
    /** `general_purpose::STANDARD.decode`; `Err` carries the decoder's message. */
    base64Decode: string -> Result<Bytes, string>,
    /** `urlencoding::decode`; `None` when the decoded bytes are not UTF-8. */
    percentDecode: string -> Option<string>,
    /** `mime_guess::from_path(p).first_or_octet_stream()`, as text. */
    mimeFromPath: string -> string,
    /** `Path::is_absolute`. */
    isAbsolute: string -> bool,
    /** `Path::extension()` when it is valid UTF-8. */
    extension: string -> Option<string>,
    /** The width reported by `image::image_dimensions`, or `None` when probing fails. */
    probeWidth: Bytes -> Option<U32>,
    /** Decode, Lanczos3 resize to the given width, PNG encode: the encoded
        thumbnail, or the resizer's error message. */
    thumbnail: (Bytes, U32) -> Result<Bytes, string>)

  /** `Path::join` on plain strings: the base, a `/`, then the name. */
  function Join(base: string, name: string): (p: string)
    ensures StartsWith(p, base + "/") && p[|base| + 1..] == name
  {
    base + "/" + name
  }
}
