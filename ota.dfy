/** The firmware-update decisions of the OTA task: which git hash a version
  * string names, whether a manifest triggers an upgrade, and which status
  * is reported. The build timestamp baked into the image, the manifest's
  * timestamp and whether the running partition is the factory one are
  * parameters. */
module Ota {
  import opened CTypes
  import opened CStr

  /** `hash_buf` holds at most 32 characters before its terminator. */
  const HashCap: nat := 32

  /** The status values of `ota_status_t`. */
  datatype OtaStatus = DevBuild | Upgrading | UpToDate | Newer

  // ---------------------------------------------------------------- git hash

  /** The position just after the first 'g' of `v`, when some character
    * follows that 'g'. */
  function HashStart(v: string): (r: Option<nat>)
    ensures r.Some? ==> 1 <= r.value < |v| && v[r.value - 1] == 'g' && 'g' !in v[..r.value - 1]
    ensures r.None? ==> 'g' !in v || v[|v| - 1] == 'g'
  {
    match StrChr(v, 'g')
    case None => None
    case Some(p) => if p + 1 < |v| then Some(p + 1) else None
  }

  /** The longest prefix of `rest` that stops before its first '-' and keeps
    * at most `HashCap` characters: what the two `strncpy` calls leave in the
    * zeroed buffer. */
  function HashPart(rest: CString): (r: CString)
    ensures r <= rest && |r| <= HashCap && '-' !in r
    ensures |r| < HashCap ==> r == rest || rest[|r|] == '-'
  {
    match StrChr(rest, '-')
    case Some(e) => rest[..Min(e, HashCap)]
    case None => rest[..Min(|rest|, HashCap)]
  }

  /** What `extract_git_hash` returns: "" for a NULL or empty version, the
    * hash after the first 'g' in git-describe form, and otherwise the
    * version itself. */
  function GitHash(version: Option<CString>): (r: CString)
    ensures version.None? || version.value == "" ==> r == ""
    ensures version.Some? && HashStart(version.value).Some? ==>
      r == HashPart(version.value[HashStart(version.value).value..])
    ensures version.Some? && HashStart(version.value).None? ==> r == version.value
  {
    if version.None? || version.value == "" then ""
    else
      match HashStart(version.value)
      case Some(s) => HashPart(version.value[s..])
      case None => version.value
  }

  /** A version that already looks like a bare hash: 4 to 12 alphanumeric
    * characters. */
  predicate LooksLikeHash(v: string) {
    4 <= |v| <= 12 && forall i | 0 <= i < |v| :: IsAlnum(v[i])
  }

  /** `extract_git_hash`, with the alphanumeric scan of its third branch.
    * `bare` reports that the version was recognised as a bare hash (the
    * branch that logs "appears to be a git hash"); either way the version
    * comes back unchanged from that branch. */
  method ExtractGitHash(version: Option<CString>) returns (r: CString, bare: bool)
    ensures r == GitHash(version)
    ensures bare <==> (version.Some? && version.value != ""
      && HashStart(version.value).None? && LooksLikeHash(version.value))
  {
    if version.None? || version.value == "" {
      return "", false;
    }
    var v := version.value;
    var start := HashStart(v);
    if start.Some? {
      return HashPart(v[start.value..]), false;
    }
    bare := false;
    if 4 <= |v| <= 12 {
      bare := true;
      var i := 0;
      while i < |v|
        invariant 0 <= i <= |v|
        invariant bare <==> forall j | 0 <= j < i :: IsAlnum(v[j])
      {
        if !IsAlnum(v[i]) {
          bare := false;
          break;
        }
        i := i + 1;
      }
    }
    r := v;
  }

  /** In `git describe` form, `<prefix>g<hash>-<suffix>` with no 'g' in the
    * prefix, the hash comes back exactly. */
  lemma DescribeHash(prefix: CString, hash: CString, suffix: CString)
    requires 'g' !in prefix && '-' !in hash && |hash| <= HashCap
    ensures GitHash(Some(prefix + "g" + hash + "-" + suffix)) == hash
  {
    var v := prefix + "g" + hash + "-" + suffix;
    assert v[..|prefix|] == prefix;
    StrChrAt(v, 'g', |prefix|);
    assert HashStart(v) == Some(|prefix| + 1);
    var rest := v[|prefix| + 1..];
    assert rest == hash + "-" + suffix;
    assert rest[..|hash|] == hash;
    StrChrAt(rest, '-', |hash|);
  }

  /** A version with no 'g' in it comes back unchanged, so extracting the
    * hash of an extracted hexadecimal hash gives that hash again. */
  lemma NoGUnchanged(v: CString)
    requires 'g' !in v
    ensures GitHash(Some(v)) == v
  {
  }

  /** The extracted hash is never longer than the input. */
  lemma HashNoLonger(version: CString)
    ensures |GitHash(Some(version))| <= |version|
  {
  }

  // ---------------------------------------------------------------- decision

  /** The outcome of the timestamp comparison in
    * `parse_manifest_and_check_update`: start the download, or stay and
    * report a status. */
  datatype Decision = Upgrade | Stay(status: OtaStatus)

  /** The upgrade decision: an upgrade starts only when both timestamps are
    * known (positive) and the remote one is later; otherwise the factory
    * partition reports a development build and an OTA partition reports
    * newer or up to date. */
  function Decide(remote: int, local: int, factory: bool): (d: Decision)
    ensures d.Upgrade? <==> remote > 0 && local > 0 && remote > local
    ensures d.Stay? && factory ==> d.status == DevBuild
    ensures d.Stay? && !factory ==>
      (d.status == Newer <==> remote > 0 && local > 0 && remote < local)
    ensures d.Stay? && !factory ==> d.status == Newer || d.status == UpToDate
  {
    if remote > 0 && local > 0 then
      if remote > local then Upgrade
      else if remote < local then Stay(if factory then DevBuild else Newer)
      else Stay(if factory then DevBuild else UpToDate)
    else Stay(if factory then DevBuild else UpToDate)
  }

  /** The status reported while deciding: `UPGRADING` just before the
    * download starts. */
  function Announced(d: Decision): (s: OtaStatus)
    ensures d.Upgrade? ==> s == Upgrading
    ensures d.Stay? ==> s == d.status
  {
    match d
    case Upgrade => Upgrading
    case Stay(s) => s
  }

  /** A manifest as the JSON parser hands it over: `Malformed` when the text
    * does not parse; otherwise the `version` and `url` members, each `None`
    * when it is missing, not a string or has no value, and the build
    * timestamp, 0 when it is missing or not a number. */
  datatype Manifest = Malformed | Fields(version: Option<CString>, url: Option<CString>, timestamp: int)

  /** What `parse_manifest_and_check_update` returns for the manifest text
    * `data` (`None` for NULL) and its parse: false for an empty or
    * unparsable manifest or one without a version and url string, and
    * otherwise true only after a started download succeeded (the device
    * then restarts). */
  function CheckUpdateResult(data: Option<CString>, manifest: Manifest, local: int, factory: bool,
                             downloadOk: bool): (r: bool)
    ensures r <==> data.Some? && data.value != "" && manifest.Fields? &&
                   manifest.version.Some? && manifest.url.Some? &&
                   manifest.timestamp > 0 && local > 0 && manifest.timestamp > local && downloadOk
  {
    if data.None? || data.value == "" then false
    else match manifest
      case Malformed => false
      case Fields(version, url, remote) =>
        if version.None? || url.None? then false
        else Decide(remote, local, factory).Upgrade? && downloadOk
  }

  // ---------------------------------------------------------------- report

  /** The arguments `ota_report_status` hands to `report_ota_status`. */
  datatype Report = Report(status: OtaStatus, hash: CString)

  /** `ota_report_status`: nothing before a manifest was seen (timestamp 0 or
    * empty version); the factory partition always reports a development
    * build; an OTA partition compares a positive remote timestamp with the
    * local one and otherwise reports up to date. */
  function ReportStatus(remote: int, remoteVersion: CString, local: int, factory: bool): (r: Option<Report>)
    ensures r.None? <==> remote == 0 || remoteVersion == ""
    ensures r.Some? ==> r.value.hash == GitHash(Some(remoteVersion))
    ensures r.Some? && factory ==> r.value.status == DevBuild
    ensures r.Some? && !factory ==> (r.value.status == Upgrading <==> remote > 0 && remote > local)
    ensures r.Some? && !factory ==> (r.value.status == Newer <==> remote > 0 && remote < local)
    ensures r.Some? && !factory ==> r.value.status != DevBuild
  {
    if remote == 0 || remoteVersion == "" then None
    else
      var status :=
        if factory then DevBuild
        else if remote > 0 then
          if remote > local then Upgrading
          else if remote < local then Newer
          else UpToDate
        else UpToDate;
      Some(Report(status, GitHash(Some(remoteVersion))))
  }

  /** With a known local build time, the periodic report names the status
    * the manifest check announced, except that the factory partition
    * announces `UPGRADING` before an upgrade while the report keeps saying
    * development build. */
  lemma {:induction false} ReportMatchesDecision(remote: int, remoteVersion: CString, local: int, factory: bool)
    requires remote != 0 && remoteVersion != "" && local > 0
    requires !(factory && Decide(remote, local, factory).Upgrade?)
    ensures ReportStatus(remote, remoteVersion, local, factory).Some?
    ensures ReportStatus(remote, remoteVersion, local, factory).value.status
      == Announced(Decide(remote, local, factory))
  {
    var r := ReportStatus(remote, remoteVersion, local, factory);
    var d := Decide(remote, local, factory);
    if factory {
      assert r.value.status == DevBuild;
    } else if remote > 0 && remote > local {
      assert d.Upgrade?;
    } else if remote > 0 && remote < local {
      assert d == Stay(Newer);
    } else {
      assert r.value.status == UpToDate;
      assert d == Stay(UpToDate);
    }
  }

  /** Without a local build time the two disagree: the manifest check
    * reports up to date, the periodic report says upgrading. */
  lemma UnknownLocalTimeDisagrees()
    ensures Announced(Decide(5, 0, false)) == UpToDate
    ensures ReportStatus(5, "abc1234", 0, false) == Some(Report(Upgrading, "abc1234"))
  {
    assert HashStart("abc1234") == None by {
      assert 'g' !in "abc1234";
    }
  }
}
