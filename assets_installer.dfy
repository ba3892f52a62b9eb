/**
 * src/assets_installer.rs: makes sure the client jar, the asset objects and
 * the libraries are on disk with the expected SHA-1, downloading whatever is
 * missing or different, one file after another, stopping at the first error.
 *
 * The disk is a map from path to bytes, the server a function from URL to
 * its response (or none, when the request cannot be sent), and SHA-1 a
 * function from bytes to the 20-byte digest.
 */
module AssetsInstaller {
  import opened Wrappers
  import opened Text
  import opened MinecraftAssets

  newtype byte = x: int | 0 <= x < 256

  type Bytes = seq<byte>

  function Min(a: nat, b: nat): nat
  {
    if a <= b then a else b
  }

  // ---------------------------------------------------------------------------
  // Hashes
  // ---------------------------------------------------------------------------

  /** `format!("{:x}", digest)`: two lowercase hex digits per byte, most significant first. */
  function LowerHex(digest: Bytes): (s: string)
    ensures |s| == 2 * |digest|
    ensures forall i :: 0 <= i < |s| ==> IsLowerHexDigit(s[i])
    ensures forall i :: 0 <= i < |digest| ==>
              s[2 * i] == HexDigit(digest[i] as int / 16) && s[2 * i + 1] == HexDigit(digest[i] as int % 16)
  {
    if digest == [] then ""
    else
      var init := digest[..|digest| - 1];
      var b := digest[|digest| - 1] as int;
      assert forall i :: 0 <= i < |init| ==> init[i] == digest[i];
      LowerHex(init) + [HexDigit(b / 16), HexDigit(b % 16)]
  }

  /** Different digests have different hex strings, so comparing the strings compares the digests. */
  lemma LowerHexInjective(a: Bytes, b: Bytes)
    requires LowerHex(a) == LowerHex(b)
    ensures a == b
  {
    var s := LowerHex(a);
    forall i | 0 <= i < |a|
      ensures a[i] == b[i]
    {
      var x := a[i] as int;
      var y := b[i] as int;
      assert HexValue(s[2 * i]) == x / 16 == y / 16;
      assert HexValue(s[2 * i + 1]) == x % 16 == y % 16;
    }
  }

  /** The server and the hash function, both outside the model. */
  datatype Net = Net(server: string -> Option<Response>, sha1: Bytes -> Bytes)

  /** One item of the response body: some bytes, or a transport error. */
  datatype Chunk = Data(bytes: Bytes) | Broken

  /** An HTTP response: status, `Content-Length` if sent, and the body as it streams in. */
  datatype Response = Response(status: int, contentLength: Option<nat>, chunks: seq<Chunk>)

  /** Why a download or a check failed. */
  datatype DownloadError =
    | SendFailed(url: string)
    | StatusFailed(url: string, status: int)
    | NoContentLength(url: string)
    | StreamFailed
    | Sha1Mismatch
    | FileMissing(path: string)

  /** `Result<(), Box<dyn Error>>`. */
  datatype Outcome = Ok | Err(error: DownloadError)

  /** `Result<bool, Box<dyn Error>>`. */
  datatype Check = Checked(matches: bool) | CheckFailed(error: DownloadError)

  /** The files on disk and the URLs requested so far. */
  datatype Disk = Disk(files: map<string, Bytes>, requested: seq<string>)

  /** A file is in place when it exists and its lowercase hex SHA-1 is the expected string. */
  predicate Verified(net: Net, files: map<string, Bytes>, path: string, sha1: string)
  {
    path in files && LowerHex(net.sha1(files[path])) == sha1
  }

  /**
   * `sha1_exists`: a missing file is an error; otherwise whether the file's
   * lowercase hex SHA-1 is exactly the expected string.
   */
  function Sha1Exists(net: Net, files: map<string, Bytes>, path: string, sha1: string): (r: Check)
    ensures r.CheckFailed? <==> path !in files
    ensures r == Checked(true) <==> Verified(net, files, path, sha1)
    ensures r == Checked(true) ==> forall i :: 0 <= i < |sha1| ==> IsLowerHexDigit(sha1[i])
  {
    if path !in files then CheckFailed(FileMissing(path))
    else Checked(LowerHex(net.sha1(files[path])) == sha1)
  }

  // ---------------------------------------------------------------------------
  // Downloading one file
  // ---------------------------------------------------------------------------

  /** All the bytes of the data chunks, in order. */
  function Flatten(chunks: seq<Chunk>): Bytes
  {
    if chunks == [] then []
    else Flatten(chunks[..|chunks| - 1]) + (if chunks[|chunks| - 1].Data? then chunks[|chunks| - 1].bytes else [])
  }

  /** The file contents and the progress counter after a stream, and whether it broke. */
  datatype Stream = Stream(bytes: Bytes, downloaded: nat, broken: bool)

  /**
   * The streaming loop: each data chunk is written and the counter becomes
   * `min(downloaded + len, total)`; the first broken chunk stops it.
   */
  function Streamed(chunks: seq<Chunk>, total: nat): (s: Stream)
    ensures s.downloaded <= total
    ensures s.downloaded == Min(|s.bytes|, total)
    ensures s.broken <==> exists i :: 0 <= i < |chunks| && chunks[i].Broken?
    ensures !s.broken ==> s.bytes == Flatten(chunks)
  {
    if chunks == [] then Stream([], 0, false)
    else
      var init := chunks[..|chunks| - 1];
      var prev := Streamed(init, total);
      assert forall i :: 0 <= i < |init| ==> init[i] == chunks[i];
      if prev.broken then prev
      else match chunks[|chunks| - 1]
        case Broken => Stream(prev.bytes, prev.downloaded, true)
        case Data(b) => Stream(prev.bytes + b, Min(prev.downloaded + |b|, total), false)
  }

  /** Once the stream has broken, later chunks change nothing. */
  lemma {:induction false} StreamedStaysFailed(xs: seq<Chunk>, ys: seq<Chunk>, total: nat)
    requires Streamed(xs, total).broken
    ensures Streamed(xs + ys, total) == Streamed(xs, total)
  {
    if ys == [] {
      assert xs + ys == xs;
    } else {
      var init := ys[..|ys| - 1];
      assert (xs + ys)[..|xs + ys| - 1] == xs + init;
      StreamedStaysFailed(xs, init, total);
    }
  }

  /** `StatusCode::is_success`. */
  predicate IsSuccess(status: int)
  {
    200 <= status < 300
  }

  /** What a download leaves behind: the result, the disk, and the progress counter. */
  datatype Transfer = Transfer(outcome: Outcome, disk: Disk, downloaded: nat)

  /** The server answers `url` with a successful response that states its length. */
  predicate Answers(net: Net, url: string)
  {
    net.server(url).Some? && IsSuccess(net.server(url).value.status) && net.server(url).value.contentLength.Some?
  }

  /**
   * `download_file`: request `url`; a failed send, an unsuccessful status or
   * a missing length is an error before anything is written; otherwise the
   * file is created, the body streamed into it, and the result is `Ok` only
   * when the file's hash then matches.
   */
  function Download(net: Net, disk: Disk, url: string, path: string, sha1: string): Transfer
  {
    var requested := disk.requested + [url];
    var response := net.server(url);
    if response.None? then Transfer(Err(SendFailed(url)), Disk(disk.files, requested), 0)
    else if !IsSuccess(response.value.status) then
      Transfer(Err(StatusFailed(url, response.value.status)), Disk(disk.files, requested), 0)
    else if response.value.contentLength.None? then Transfer(Err(NoContentLength(url)), Disk(disk.files, requested), 0)
    else
      var s := Streamed(response.value.chunks, response.value.contentLength.value);
      var files := disk.files[path := s.bytes];
      if s.broken then Transfer(Err(StreamFailed), Disk(files, requested), s.downloaded)
      else if Sha1Exists(net, files, path, sha1) != Checked(true) then Transfer(Err(Sha1Mismatch), Disk(files, requested), s.downloaded)
      else Transfer(Ok, Disk(files, requested), s.downloaded)
  }

  /**
   * What a download promises: the URL is logged; an error before the file is
   * created leaves the files as they were; otherwise only `path` changes and
   * the counter stays within the announced length; the result is `Ok`
   * exactly when the body arrived whole and hashes to the expected string,
   * and then the file holds the body and is in place.
   */
  lemma DownloadContract(net: Net, disk: Disk, url: string, path: string, sha1: string)
    ensures var t := Download(net, disk, url, path, sha1);
            && t.disk.requested == disk.requested + [url]
            && (!Answers(net, url) ==> t.outcome.Err? && t.disk.files == disk.files)
            && (Answers(net, url) ==> path in t.disk.files && t.disk.files == disk.files[path := t.disk.files[path]])
            && (Answers(net, url) ==> t.downloaded <= net.server(url).value.contentLength.value)
    ensures var t := Download(net, disk, url, path, sha1);
            t.outcome.Ok? <==>
              && Answers(net, url)
              && (forall i :: 0 <= i < |net.server(url).value.chunks| ==> net.server(url).value.chunks[i].Data?)
              && LowerHex(net.sha1(Flatten(net.server(url).value.chunks))) == sha1
    ensures var t := Download(net, disk, url, path, sha1);
            t.outcome.Ok? ==> Verified(net, t.disk.files, path, sha1) && t.disk.files[path] == Flatten(net.server(url).value.chunks)
  {
  }

  // ---------------------------------------------------------------------------
  // Validating a list of files
  // ---------------------------------------------------------------------------

  /** `DownloadAsset`: what to check and where to fetch it from. */
  datatype DownloadAsset = DownloadAsset(fileName: string, filePath: string, sha1: string, size: int, url: string)

  /** The state after a validation pass: the first error or `Ok`, and the disk. */
  datatype Progress = Progress(outcome: Outcome, disk: Disk)

  /**
   * `validate_download_assets`: for each asset in order, skip it when it is
   * already in place, otherwise download it; the first failed download ends
   * the pass. (The file is known to exist when its hash is checked, so the
   * check cannot fail there.)
   */
  function ValidateFrom(net: Net, disk: Disk, assets: seq<DownloadAsset>): (p: Progress)
    ensures disk.requested <= p.disk.requested
    ensures |p.disk.requested| <= |disk.requested| + |assets|
    decreases |assets|
  {
    if assets == [] then Progress(Ok, disk)
    else
      var a := assets[0];
      if Verified(net, disk.files, a.filePath, a.sha1) then ValidateFrom(net, disk, assets[1..])
      else
        var t := Download(net, disk, a.url, a.filePath, a.sha1);
        if t.outcome.Err? then Progress(t.outcome, t.disk) else ValidateFrom(net, t.disk, assets[1..])
  }

  /**
   * A single file is requested exactly when it is not in place; when it is in
   * place nothing changes, and a request that succeeds leaves it in place.
   */
  lemma ValidateOne(net: Net, disk: Disk, a: DownloadAsset)
    ensures var p := ValidateFrom(net, disk, [a]);
            && (Verified(net, disk.files, a.filePath, a.sha1) ==> p == Progress(Ok, disk))
            && (!Verified(net, disk.files, a.filePath, a.sha1) ==>
                  && p.disk.requested == disk.requested + [a.url]
                  && (p.outcome.Ok? ==> Verified(net, p.disk.files, a.filePath, a.sha1)))
  {
    assert [a][0] == a && [a][1..] == [];
  }

  /**
   * One pass over a concatenation is a pass over the first part, then, if
   * that succeeded, a pass over the second part from where it left the disk.
   */
  lemma {:induction false} ValidateFromAppend(net: Net, disk: Disk, xs: seq<DownloadAsset>, ys: seq<DownloadAsset>)
    ensures ValidateFrom(net, disk, xs + ys) ==
              var p := ValidateFrom(net, disk, xs);
              if p.outcome.Err? then p else ValidateFrom(net, p.disk, ys)
    decreases |xs|
  {
    if xs == [] {
      assert xs + ys == ys;
    } else {
      assert (xs + ys)[0] == xs[0];
      assert (xs + ys)[1..] == xs[1..] + ys;
      var a := xs[0];
      if Verified(net, disk.files, a.filePath, a.sha1) {
        ValidateFromAppend(net, disk, xs[1..], ys);
      } else {
        var t := Download(net, disk, a.url, a.filePath, a.sha1);
        if t.outcome.Ok? {
          ValidateFromAppend(net, t.disk, xs[1..], ys);
        }
      }
    }
  }

  /** When every file is already in place, nothing is requested and the disk is unchanged. */
  lemma {:induction false} AllInPlaceDownloadsNothing(net: Net, disk: Disk, assets: seq<DownloadAsset>)
    requires forall i :: 0 <= i < |assets| ==> Verified(net, disk.files, assets[i].filePath, assets[i].sha1)
    ensures ValidateFrom(net, disk, assets) == Progress(Ok, disk)
    decreases |assets|
  {
    if assets != [] {
      assert forall i :: 0 <= i < |assets| - 1 ==> assets[1..][i] == assets[i + 1];
      AllInPlaceDownloadsNothing(net, disk, assets[1..]);
    }
  }

  /** A pass touches only the files it was given. */
  lemma {:induction false} ValidateFromFrame(net: Net, disk: Disk, assets: seq<DownloadAsset>, path: string)
    requires forall i :: 0 <= i < |assets| ==> assets[i].filePath != path
    ensures path in ValidateFrom(net, disk, assets).disk.files <==> path in disk.files
    ensures path in disk.files ==> ValidateFrom(net, disk, assets).disk.files[path] == disk.files[path]
    decreases |assets|
  {
    if assets != [] {
      assert forall i :: 0 <= i < |assets| - 1 ==> assets[1..][i] == assets[i + 1];
      var a := assets[0];
      if Verified(net, disk.files, a.filePath, a.sha1) {
        ValidateFromFrame(net, disk, assets[1..], path);
      } else {
        var t := Download(net, disk, a.url, a.filePath, a.sha1);
        if t.outcome.Ok? {
          ValidateFromFrame(net, t.disk, assets[1..], path);
        }
      }
    }
  }

  /** Entries of a list that name the same path expect the same hash. */
  predicate SameHashAtSamePath(assets: seq<DownloadAsset>)
  {
    forall i, j :: 0 <= i < |assets| && 0 <= j < |assets| && assets[i].filePath == assets[j].filePath ==>
                     assets[i].sha1 == assets[j].sha1
  }

  /**
   * After a successful pass over a list whose entries at a shared path agree
   * on the hash, every one of its files is in place.
   */
  lemma {:induction false} ValidatedFilesAreInPlace(net: Net, disk: Disk, assets: seq<DownloadAsset>)
    requires SameHashAtSamePath(assets)
    requires ValidateFrom(net, disk, assets).outcome.Ok?
    ensures forall i :: 0 <= i < |assets| ==>
              Verified(net, ValidateFrom(net, disk, assets).disk.files, assets[i].filePath, assets[i].sha1)
    decreases |assets|
  {
    if assets != [] {
      var rest := assets[1..];
      assert forall i :: 0 <= i < |rest| ==> rest[i] == assets[i + 1];
      var a := assets[0];
      var mid := if Verified(net, disk.files, a.filePath, a.sha1) then disk
                 else Download(net, disk, a.url, a.filePath, a.sha1).disk;
      assert ValidateFrom(net, disk, assets) == ValidateFrom(net, mid, rest);
      assert Verified(net, mid.files, a.filePath, a.sha1);
      ValidatedFilesAreInPlace(net, mid, rest);
      var final := ValidateFrom(net, mid, rest).disk.files;
      if j :| 0 <= j < |rest| && rest[j].filePath == a.filePath {
        // a later entry rewrites the path, but it expects the same hash
        assert assets[j + 1].sha1 == a.sha1;
        assert Verified(net, final, rest[j].filePath, rest[j].sha1);
      } else {
        ValidateFromFrame(net, mid, rest, a.filePath);
      }
      forall i | 0 <= i < |assets|
        ensures Verified(net, final, assets[i].filePath, assets[i].sha1)
      {
        if i > 0 {
          assert assets[i] == rest[i - 1];
        }
      }
    }
  }

  // ---------------------------------------------------------------------------
  // The three kinds of files
  // ---------------------------------------------------------------------------

  /** The client jar as an asset to check. */
  function ClientAsset(client: Client): DownloadAsset
  {
    DownloadAsset(client.fileName, client.filePath, client.sha1, client.size, client.url)
  }

  /** The libraries as assets to check, in order. */
  function LibraryDownloads(libraries: seq<Library>): (d: seq<DownloadAsset>)
    ensures |d| == |libraries|
    ensures forall i :: 0 <= i < |d| ==>
              d[i] == DownloadAsset(libraries[i].fileName, libraries[i].filePath, libraries[i].sha1, libraries[i].size, libraries[i].url)
  {
    seq(|libraries|, i requires 0 <= i < |libraries| =>
      DownloadAsset(libraries[i].fileName, libraries[i].filePath, libraries[i].sha1, libraries[i].size, libraries[i].url))
  }

  /** The asset objects as assets to check, in order, fetched from their download URL. */
  function ObjectDownloads(objects: seq<AssetObject>): (d: seq<DownloadAsset>)
    ensures |d| == |objects|
    ensures forall i :: 0 <= i < |d| ==>
              d[i] == DownloadAsset(objects[i].fileName, objects[i].filePath, objects[i].sha1, objects[i].size, objects[i].downloadUrl)
  {
    seq(|objects|, i requires 0 <= i < |objects| =>
      DownloadAsset(objects[i].fileName, objects[i].filePath, objects[i].sha1, objects[i].size, objects[i].downloadUrl))
  }

  /**
   * `minecraft_client_install`: download the jar when it is missing or its
   * hash differs; otherwise leave everything as it is.
   */
  function ClientInstall(net: Net, disk: Disk, client: Client): (p: Progress)
    ensures Verified(net, disk.files, client.filePath, client.sha1) ==> p == Progress(Ok, disk)
    ensures !Verified(net, disk.files, client.filePath, client.sha1) ==>
              && p.disk.requested == disk.requested + [client.url]
              && (p.outcome.Ok? ==> Verified(net, p.disk.files, client.filePath, client.sha1))
  {
    if client.filePath !in disk.files || Sha1Exists(net, disk.files, client.filePath, client.sha1) != Checked(true) then
      var t := Download(net, disk, client.url, client.filePath, client.sha1);
      Progress(t.outcome, t.disk)
    else Progress(Ok, disk)
  }

  /** Installing the client is validating the one-element list holding it. */
  lemma ClientInstallIsValidation(net: Net, disk: Disk, client: Client)
    ensures ClientInstall(net, disk, client) == ValidateFrom(net, disk, [ClientAsset(client)])
  {
    var a := ClientAsset(client);
    assert [a][0] == a && [a][1..] == [];
  }

  /** `validate_installer`: the client, then the asset objects, then the libraries, stopping at the first error. */
  function Installer(net: Net, disk: Disk, assets: Assets): Progress
  {
    var c := ClientInstall(net, disk, assets.client);
    if c.outcome.Err? then c
    else
      var a := ValidateFrom(net, c.disk, ObjectDownloads(assets.assetsObjects));
      if a.outcome.Err? then a
      else ValidateFrom(net, a.disk, LibraryDownloads(assets.libraries))
  }

  /** The whole installation is one sequential pass: client, objects, libraries. */
  lemma InstallerIsOnePass(net: Net, disk: Disk, assets: Assets)
    ensures Installer(net, disk, assets) ==
              ValidateFrom(net, disk, [ClientAsset(assets.client)] + ObjectDownloads(assets.assetsObjects) + LibraryDownloads(assets.libraries))
  {
    var c := [ClientAsset(assets.client)];
    var o := ObjectDownloads(assets.assetsObjects);
    var l := LibraryDownloads(assets.libraries);
    ClientInstallIsValidation(net, disk, assets.client);
    ValidateFromAppend(net, disk, c + o, l);
    ValidateFromAppend(net, disk, c, o);
  }

  /** Everything the installer checks, in the order it checks it. */
  function InstallList(assets: Assets): (l: seq<DownloadAsset>)
    ensures |l| == 1 + |assets.assetsObjects| + |assets.libraries|
  {
    [ClientAsset(assets.client)] + ObjectDownloads(assets.assetsObjects) + LibraryDownloads(assets.libraries)
  }

  /** Splits "every entry is in place" for a list made of a first entry and two parts. */
  lemma PartsInPlace(net: Net, files: map<string, Bytes>, c: DownloadAsset, o: seq<DownloadAsset>, d: seq<DownloadAsset>)
    requires forall i :: 0 <= i < |[c] + o + d| ==> Verified(net, files, ([c] + o + d)[i].filePath, ([c] + o + d)[i].sha1)
    ensures Verified(net, files, c.filePath, c.sha1)
    ensures forall i :: 0 <= i < |o| ==> Verified(net, files, o[i].filePath, o[i].sha1)
    ensures forall i :: 0 <= i < |d| ==> Verified(net, files, d[i].filePath, d[i].sha1)
  {
    var l := [c] + o + d;
    assert l[0] == c;
    forall i | 0 <= i < |o|
      ensures Verified(net, files, o[i].filePath, o[i].sha1)
    {
      assert l[1 + i] == o[i];
    }
    forall i | 0 <= i < |d|
      ensures Verified(net, files, d[i].filePath, d[i].sha1)
    {
      assert l[1 + |o| + i] == d[i];
    }
  }

  /**
   * After a successful installation the client jar, every asset object and
   * every library are in place, provided the entries naming one path agree
   * on its hash.
   */
  lemma InstalledFilesAreInPlace(net: Net, disk: Disk, assets: Assets)
    requires SameHashAtSamePath(InstallList(assets))
    requires Installer(net, disk, assets).outcome.Ok?
    ensures var files := Installer(net, disk, assets).disk.files;
            && Verified(net, files, assets.client.filePath, assets.client.sha1)
            && (forall i :: 0 <= i < |assets.assetsObjects| ==>
                  Verified(net, files, assets.assetsObjects[i].filePath, assets.assetsObjects[i].sha1))
            && (forall i :: 0 <= i < |assets.libraries| ==>
                  Verified(net, files, assets.libraries[i].filePath, assets.libraries[i].sha1))
  {
    InstallerIsOnePass(net, disk, assets);
    var files := ValidateFrom(net, disk, InstallList(assets)).disk.files;
    ValidatedFilesAreInPlace(net, disk, InstallList(assets));
    PartsInPlace(net, files, ClientAsset(assets.client), ObjectDownloads(assets.assetsObjects), LibraryDownloads(assets.libraries));
  }

  // ---------------------------------------------------------------------------
  // The machine
  // ---------------------------------------------------------------------------

  /** The disk and the network log the installer works on. */
  class Host {
    var files: map<string, Bytes>
    var requested: seq<string>
    const net: Net

    constructor (net: Net, files: map<string, Bytes>)
      ensures this.net == net && this.files == files && requested == []
    {
      this.net := net;
      this.files := files;
      requested := [];
    }

    function State(): Disk
      reads this
    {
      Disk(files, requested)
    }

    /**
     * The streaming loop of `download_file`: appends each chunk to the file at
     * `path` and updates the counter, stopping at the first broken chunk.
     */
    method StreamInto(path: string, chunks: seq<Chunk>, totalSize: nat) returns (broken: bool, downloaded: nat)
      requires path in files && files[path] == []
      modifies this
      ensures files == old(files)[path := Streamed(chunks, totalSize).bytes]
      ensures requested == old(requested)
      ensures broken == Streamed(chunks, totalSize).broken && downloaded == Streamed(chunks, totalSize).downloaded
    {
      downloaded := 0;
      var i := 0;
      while i < |chunks|
        invariant 0 <= i <= |chunks|
        invariant path in files && files == old(files)[path := files[path]]
        invariant Streamed(chunks[..i], totalSize) == Stream(files[path], downloaded, false)
        invariant requested == old(requested)
      {
        assert chunks[..i + 1][..i] == chunks[..i];
        match chunks[i] {
          case Broken =>
            assert chunks[..i + 1] + chunks[i + 1..] == chunks;
            StreamedStaysFailed(chunks[..i + 1], chunks[i + 1..], totalSize);
            return true, downloaded;
          case Data(chunk) =>
            files := files[path := files[path] + chunk];
            downloaded := Min(downloaded + |chunk|, totalSize);
        }
        i := i + 1;
      }
      assert chunks[..i] == chunks;
      return false, downloaded;
    }

    /** `download_file`, returning the final value of its `downloaded` counter as well. */
    method DownloadFile(url: string, path: string, sha1: string) returns (r: Outcome, downloaded: nat)
      modifies this
      ensures Transfer(r, State(), downloaded) == Download(net, old(State()), url, path, sha1)
    {
      requested := requested + [url];
      downloaded := 0;
      var response := net.server(url);
      if response.None? {
        return Err(SendFailed(url)), downloaded;
      }
      if !IsSuccess(response.value.status) {
        return Err(StatusFailed(url, response.value.status)), downloaded;
      }
      if response.value.contentLength.None? {
        return Err(NoContentLength(url)), downloaded;
      }
      var totalSize := response.value.contentLength.value;
      files := files[path := []];
      var broken;
      broken, downloaded := StreamInto(path, response.value.chunks, totalSize);
      if broken {
        return Err(StreamFailed), downloaded;
      }
      if Sha1Exists(net, files, path, sha1) != Checked(true) {
        return Err(Sha1Mismatch), downloaded;
      }
      return Ok, downloaded;
    }

    /** `validate_download_assets`; `limit` is accepted and has no effect. */
    method ValidateDownloadAssets(assets: seq<DownloadAsset>, limit: nat) returns (r: Outcome)
      modifies this
      ensures Progress(r, State()) == ValidateFrom(net, old(State()), assets)
    {
      for i := 0 to |assets|
        invariant ValidateFrom(net, old(State()), assets) == ValidateFrom(net, State(), assets[i..])
      {
        var asset := assets[i];
        assert assets[i..][0] == asset && assets[i..][1..] == assets[i + 1..];
        if asset.filePath in files && Sha1Exists(net, files, asset.filePath, asset.sha1) == Checked(true) {
          continue;
        }
        var outcome, downloaded := DownloadFile(asset.url, asset.filePath, asset.sha1);
        if outcome.Err? {
          return outcome;
        }
      }
      return Ok;
    }

    /** `minecraft_client_install`. */
    method MinecraftClientInstall(client: Client) returns (r: Outcome)
      modifies this
      ensures Progress(r, State()) == ClientInstall(net, old(State()), client)
    {
      if client.filePath !in files || Sha1Exists(net, files, client.filePath, client.sha1) != Checked(true) {
        var downloaded;
        r, downloaded := DownloadFile(client.url, client.filePath, client.sha1);
        return r;
      }
      return Ok;
    }

    /** `minecraft_assets_install`: the objects are listed in order, then validated. */
    method MinecraftAssetsInstall(assetsObjects: seq<AssetObject>) returns (r: Outcome)
      modifies this
      ensures Progress(r, State()) == ValidateFrom(net, old(State()), ObjectDownloads(assetsObjects))
    {
      var downloadAssets: seq<DownloadAsset> := [];
      for i := 0 to |assetsObjects|
        invariant downloadAssets == ObjectDownloads(assetsObjects[..i])
      {
        var o := assetsObjects[i];
        downloadAssets := downloadAssets + [DownloadAsset(o.fileName, o.filePath, o.sha1, o.size, o.downloadUrl)];
      }
      assert assetsObjects[..|assetsObjects|] == assetsObjects;
      r := ValidateDownloadAssets(downloadAssets, 5);
    }

    /** `minecraft_libraries_install`: the libraries are listed in order, then validated. */
    method MinecraftLibrariesInstall(libraries: seq<Library>) returns (r: Outcome)
      modifies this
      ensures Progress(r, State()) == ValidateFrom(net, old(State()), LibraryDownloads(libraries))
    {
      var downloadLibraries: seq<DownloadAsset> := [];
      for i := 0 to |libraries|
        invariant downloadLibraries == LibraryDownloads(libraries[..i])
      {
        var lib := libraries[i];
        downloadLibraries := downloadLibraries + [DownloadAsset(lib.fileName, lib.filePath, lib.sha1, lib.size, lib.url)];
      }
      assert libraries[..|libraries|] == libraries;
      r := ValidateDownloadAssets(downloadLibraries, 5);
    }

    /** `validate_installer`. */
    method ValidateInstaller(assets: Assets) returns (r: Outcome)
      modifies this
      ensures Progress(r, State()) == Installer(net, old(State()), assets)
    {
      r := MinecraftClientInstall(assets.client);
      if r.Err? {
        return r;
      }
      r := MinecraftAssetsInstall(assets.assetsObjects);
      if r.Err? {
        return r;
      }
      r := MinecraftLibrariesInstall(assets.libraries);
    }
  }
}
