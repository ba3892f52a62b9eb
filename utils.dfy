/** src/utils.rs: the launcher's platform tag for the operating system it runs on. */
module Utils {
  import opened Wrappers

  /** The tags `get_os_type` can return: Node.js-style platform names. */
  type OsTag = s: string | s == "win32" || s == "darwin" || s == "linux" witness "linux"

  /** The value of Rust's `std::env::consts::OS` on the platform a tag names. */
  function RustOsName(tag: OsTag): string
  {
    if tag == "win32" then "windows" else if tag == "darwin" then "macos" else "linux"
  }

  /**
   * `get_os_type`: maps the compile-time OS name (`os`, a parameter here) to
   * the launcher's tag; any OS other than Windows, macOS and Linux panics.
   */
  function GetOsType(os: string): (r: Run<OsTag>)
    ensures r.Returns? <==> os == "windows" || os == "macos" || os == "linux"
    ensures r.Returns? ==> RustOsName(r.value) == os
  {
    match os
    case "windows" => Returns("win32")
    case "macos" => Returns("darwin")
    case "linux" => Returns("linux")
    case _ => Panics
  }

  /** Every tag is reached from exactly one OS name, so the mapping is a bijection onto the tags. */
  lemma {:induction false} GetOsTypeOnto(tag: OsTag)
    ensures GetOsType(RustOsName(tag)) == Returns(tag)
  {
  }
}
