/**
 The docker command builders of `exports.docker` (index.js:53-133). Each
 operation turns its arguments into one `docker ...` argument string and
 runs it through the shared executor.

 The shell's exit status is the parameter `code`; the file-system test
 `shell.test("-d", path)` is the parameter `isDir`; the home directory that
 `getUserHome` reads from the environment is the parameter `home`.
 */
module Docker {
  import opened Text
  import opened ImageRef
  import opened Interpolation
  import opened Executor
  import opened Shell

  /** Logs in as `userName`, against `server` when one is given (index.js:54-57). */
  function Login(flags: Flags, userName: string, server: Option<string>, code: int): (o: Outcome<()>)
    ensures server.None? ==> Ran(o, flags, "login -u '" + userName + "' ", code)
    ensures server.Some? ==> Ran(o, flags, "login -u '" + userName + "'  '" + server.value + "'", code)
  {
    var serverPart := if server.Some? then " " + Quote(server.value) else "";
    var args := Join(["login", "-u", Quote(userName), serverPart], " ");
    LoginText(userName, serverPart);
    if server.Some? then
      assert args == "login -u '" + userName + "'  '" + server.value + "'";
      RunDocker(flags, args, code)
    else
      assert args == "login -u '" + userName + "' ";
      RunDocker(flags, args, code)
  }

  lemma LoginText(userName: string, serverPart: string)
    ensures Join(["login", "-u", Quote(userName), serverPart], " ") == "login -u '" + userName + "' " + serverPart
  {
    JoinFour("login", "-u", Quote(userName), serverPart, " ");
    assert "login" + " " + "-u" + " " == "login -u ";
    assert "login -u " + Quote(userName) + " " == "login -u '" + userName + "' ";
  }

  /**
   Tags `imageName[:version]` as `remoteImageName[:version]`, the same version
   on both sides, and returns the remote reference (index.js:59-65).
   */
  function TagRemoteName(flags: Flags, imageName: string, remoteImageName: string, version: Version, code: int)
    : (o: Outcome<string>)
    ensures IsTagged(version) ==>
      Ran(o, flags, "tag '" + imageName + ":" + version.s + "' '" + remoteImageName + ":" + version.s + "'", code)
    ensures !IsTagged(version) ==> Ran(o, flags, "tag '" + imageName + "' '" + remoteImageName + "'", code)
    ensures o.result.Returned? ==> o.result.value == JoinVersion(remoteImageName, version)
  {
    var local := JoinVersion(imageName, version);
    var remote := JoinVersion(remoteImageName, version);
    var args := "tag " + Quote(local) + " " + Quote(remote);
    TagPairText(imageName, remoteImageName, version);
    RunDocker(flags, args, code).Then(remote)
  }

  lemma TagPairText(imageName: string, remoteImageName: string, version: Version)
    ensures var args := "tag " + Quote(JoinVersion(imageName, version)) + " " + Quote(JoinVersion(remoteImageName, version));
      && (IsTagged(version) ==>
            args == "tag '" + imageName + ":" + version.s + "' '" + remoteImageName + ":" + version.s + "'")
      && (!IsTagged(version) ==> args == "tag '" + imageName + "' '" + remoteImageName + "'")
  {
    if IsTagged(version) {
      TaggedPairText(imageName, remoteImageName, version.s);
    } else {
      QuotedPairText(imageName, remoteImageName);
    }
  }

  lemma QuotedPairText(a: string, b: string)
    ensures "tag " + Quote(a) + " " + Quote(b) == "tag '" + a + "' '" + b + "'"
  {
  }

  lemma TaggedPairText(a: string, b: string, v: string)
    ensures "tag " + Quote(a + ":" + v) + " " + Quote(b + ":" + v) == "tag '" + a + ":" + v + "' '" + b + ":" + v + "'"
  {
    QuotedPairText(a + ":" + v, b + ":" + v);
    assert "tag '" + (a + ":" + v) + "' '" + (b + ":" + v) == "tag '" + a + ":" + v + "' '" + b + ":" + v;
  }

  /** Tags `imageName` as `imageName[:tag]` and returns the new reference (index.js:67-72). */
  function Tag(flags: Flags, imageName: string, tag: Version, code: int): (o: Outcome<string>)
    ensures IsTagged(tag) ==> Ran(o, flags, "tag '" + imageName + "' '" + imageName + ":" + tag.s + "'", code)
    ensures !IsTagged(tag) ==> Ran(o, flags, "tag '" + imageName + "' '" + imageName + "'", code)
    ensures o.result.Returned? ==> o.result.value == JoinVersion(imageName, tag)
  {
    var fullName := JoinVersion(imageName, tag);
    var args := "tag " + Quote(imageName) + " " + Quote(fullName);
    assert args == "tag '" + imageName + "' '" + fullName + "'";
    assert IsTagged(tag) ==> args == "tag '" + imageName + "' '" + imageName + ":" + tag.s + "'";
    RunDocker(flags, args, code).Then(fullName)
  }

  /** Pushes a reference (index.js:74-77). */
  function Push(flags: Flags, ref: string, code: int): (o: Outcome<()>)
    ensures Ran(o, flags, "push '" + ref + "'", code)
  {
    var args := "push " + Quote(ref);
    assert args == "push '" + ref + "'";
    RunDocker(flags, args, code)
  }

  /** Pulls `image[:tag]` (index.js:79-83). */
  function Pull(flags: Flags, image: string, tag: Version, code: int): (o: Outcome<()>)
    ensures IsTagged(tag) ==> Ran(o, flags, "pull '" + image + ":" + tag.s + "'", code)
    ensures !IsTagged(tag) ==> Ran(o, flags, "pull '" + image + "'", code)
  {
    var fullName := JoinVersion(image, tag);
    var args := "pull " + Quote(fullName);
    assert args == "pull '" + fullName + "'";
    assert IsTagged(tag) ==> args == "pull '" + image + ":" + tag.s + "'";
    RunDocker(flags, args, code)
  }

  /**
   Builds an image from `directory`, the current directory when it is absent
   or empty (index.js:85-89); neither argument is quoted.
   */
  function Build(flags: Flags, imageName: string, directory: Option<string>, code: int): (o: Outcome<()>)
    ensures directory.Some? && directory.value != "" ==>
      Ran(o, flags, "build -t " + imageName + " " + directory.value, code)
    ensures directory.None? || directory.value == "" ==> Ran(o, flags, "build -t " + imageName + " .", code)
  {
    var dir := if directory.Some? && directory.value != "" then directory.value else ".";
    var args := "build -t " + imageName + " " + dir;
    assert dir == "." ==> args == "build -t " + imageName + " .";
    RunDocker(flags, args, code)
  }

  /** Force-removes a container, its name quoted (index.js:91-94). */
  function RemoveContainer(flags: Flags, containerName: string, code: int): (o: Outcome<()>)
    ensures Ran(o, flags, "rm -f '" + containerName + "'", code)
  {
    var args := "rm -f " + Quote(containerName);
    assert args == "rm -f '" + containerName + "'";
    RunDocker(flags, args, code)
  }

  /** Force-removes a container, its name not quoted (index.js:130-132). */
  function Kill(flags: Flags, containerName: string, code: int): (o: Outcome<()>)
    ensures Ran(o, flags, "rm -f " + containerName, code)
  {
    RunDocker(flags, "rm -f " + containerName, code)
  }

  /**
   `kill` is `removeContainer` without the quotes: killing the quoted name is
   removing the name, and the two never issue the same command line.
   */
  lemma KillIsUnquotedRemove(flags: Flags, containerName: string, code: int)
    ensures Kill(flags, Quote(containerName), code) == RemoveContainer(flags, containerName, code)
    ensures Kill(flags, containerName, code).issued != RemoveContainer(flags, containerName, code).issued
  {
    var killed := Kill(flags, containerName, code).issued.value.cmdline;
    var removed := RemoveContainer(flags, containerName, code).issued.value.cmdline;
    assert ParseCommandLine(killed).value.args != ParseCommandLine(removed).value.args by {
      assert |"rm -f " + containerName| != |"rm -f " + Quote(containerName)|;
    }
  }

  // ---------------------------------------------------------------------------
  // The words docker receives. A quoted argument is one word whatever it holds,
  // as long as it holds no single quote; an unquoted one is split at blanks.

  /** `login` passes `-u <user>` and the server, if any; the extra blanks add no word. */
  lemma LoginWords(flags: Flags, userName: string, server: Option<string>, code: int)
    requires '\'' !in userName
    requires server.Some? ==> '\'' !in server.value
    ensures ShellWords(Login(flags, userName, server, code).issued.value.cmdline)
      == DockerWords(flags) + ["login", "-u", userName] + (if server.Some? then [server.value] else [])
  {
    var rest := if server.Some? then " " + Quote(server.value) else "";
    var args := "login -u " + Quote(userName) + " " + rest;
    if server.Some? {
      assert args == "login -u '" + userName + "'  '" + server.value + "'";
      ReadLeadingBlank(Quote(server.value));
      ReadLastQuoted(server.value);
    } else {
      assert args == "login -u '" + userName + "' ";
    }
    CommandLineWords(flags, args);
    assert "login -u " == "login" + " " + "-u" + " ";
    BareBareQuotedWords("login", "-u", userName, rest);
  }

  /** `tagRemoteName` passes the local and the remote reference, one word each. */
  lemma TagRemoteNameWords(flags: Flags, imageName: string, remoteImageName: string, version: Version, code: int)
    requires '\'' !in imageName && '\'' !in remoteImageName
    requires version.Str? ==> '\'' !in version.s
    ensures ShellWords(TagRemoteName(flags, imageName, remoteImageName, version, code).issued.value.cmdline)
      == DockerWords(flags) + ["tag", JoinVersion(imageName, version), JoinVersion(remoteImageName, version)]
  {
    var local, remote := JoinVersion(imageName, version), JoinVersion(remoteImageName, version);
    var args := "tag " + Quote(local) + " " + Quote(remote);
    assert TagRemoteName(flags, imageName, remoteImageName, version, code).issued == RunDocker(flags, args, code).issued;
    CommandLineWords(flags, args);
    assert "tag " == "tag" + " ";
    QuotedPairWords("tag", local, remote);
  }

  /** `tag` passes the image and its tagged reference, one word each. */
  lemma TagWords(flags: Flags, imageName: string, tag: Version, code: int)
    requires '\'' !in imageName
    requires tag.Str? ==> '\'' !in tag.s
    ensures ShellWords(Tag(flags, imageName, tag, code).issued.value.cmdline)
      == DockerWords(flags) + ["tag", imageName, JoinVersion(imageName, tag)]
  {
    var fullName := JoinVersion(imageName, tag);
    assert '\'' !in fullName;
    var args := "tag " + Quote(imageName) + " " + Quote(fullName);
    assert Tag(flags, imageName, tag, code).issued == RunDocker(flags, args, code).issued;
    CommandLineWords(flags, args);
    assert "tag " == "tag" + " ";
    QuotedPairWords("tag", imageName, fullName);
  }

  /** `push` passes the reference as one word. */
  lemma PushWords(flags: Flags, ref: string, code: int)
    requires '\'' !in ref
    ensures ShellWords(Push(flags, ref, code).issued.value.cmdline) == DockerWords(flags) + ["push", ref]
  {
    var args := "push " + Quote(ref);
    assert Push(flags, ref, code).issued == RunDocker(flags, args, code).issued;
    CommandLineWords(flags, args);
    assert "push " == "push" + " ";
    QuotedArgWords("push", ref);
  }

  /** `pull` passes the tagged reference as one word. */
  lemma PullWords(flags: Flags, image: string, tag: Version, code: int)
    requires '\'' !in image
    requires tag.Str? ==> '\'' !in tag.s
    ensures ShellWords(Pull(flags, image, tag, code).issued.value.cmdline)
      == DockerWords(flags) + ["pull", JoinVersion(image, tag)]
  {
    var fullName := JoinVersion(image, tag);
    var args := "pull " + Quote(fullName);
    assert Pull(flags, image, tag, code).issued == RunDocker(flags, args, code).issued;
    CommandLineWords(flags, args);
    assert "pull " == "pull" + " ";
    QuotedArgWords("pull", fullName);
  }

  /**
   `build` passes `-t <name> <dir>`; the arguments are not quoted, so this
   holds only for a non-empty name and directory without blanks or quotes.
   */
  lemma BuildWords(flags: Flags, imageName: string, directory: Option<string>, code: int)
    requires Bare(imageName) && |imageName| > 0
    requires directory.Some? ==> Bare(directory.value)
    ensures ShellWords(Build(flags, imageName, directory, code).issued.value.cmdline)
      == DockerWords(flags) + ["build", "-t", imageName,
                               if directory.Some? && directory.value != "" then directory.value else "."]
  {
    var dir := if directory.Some? && directory.value != "" then directory.value else ".";
    var args := "build -t " + imageName + " " + dir;
    assert Build(flags, imageName, directory, code).issued == RunDocker(flags, args, code).issued;
    CommandLineWords(flags, args);
    assert "build -t " == "build" + " " + "-t" + " ";
    BareWords4("build", "-t", imageName, dir);
  }

  /** `removeContainer` passes the name as one word, blanks included. */
  lemma RemoveContainerWords(flags: Flags, containerName: string, code: int)
    requires '\'' !in containerName
    ensures ShellWords(RemoveContainer(flags, containerName, code).issued.value.cmdline)
      == DockerWords(flags) + ["rm", "-f", containerName]
  {
    var args := "rm -f " + Quote(containerName);
    assert RemoveContainer(flags, containerName, code).issued == RunDocker(flags, args, code).issued;
    CommandLineWords(flags, args);
    assert args == "rm" + " " + ("-f" + " " + Quote(containerName));
    ReadBareWord("rm", "-f" + " " + Quote(containerName));
    QuotedArgWords("-f", containerName);
  }

  /** `kill` passes a bare name as one word. */
  lemma KillWords(flags: Flags, containerName: string, code: int)
    requires Bare(containerName) && |containerName| > 0
    ensures ShellWords(Kill(flags, containerName, code).issued.value.cmdline)
      == DockerWords(flags) + ["rm", "-f", containerName]
  {
    var args := "rm -f " + containerName;
    CommandLineWords(flags, args);
    assert args == "rm" + " " + ("-f" + " " + containerName);
    ReadBareWord("rm", "-f" + " " + containerName);
    ReadBareWord("-f", containerName);
    ReadLastBare(containerName);
  }

  /**
   `kill` splits a name with a blank into two words, where `removeContainer`
   keeps it as one.
   */
  lemma KillSplitsName(flags: Flags, first: string, second: string, code: int)
    requires Bare(first) && |first| > 0 && Bare(second) && |second| > 0
    ensures ShellWords(Kill(flags, first + " " + second, code).issued.value.cmdline)
      == DockerWords(flags) + ["rm", "-f", first, second]
    ensures ShellWords(RemoveContainer(flags, first + " " + second, code).issued.value.cmdline)
      == DockerWords(flags) + ["rm", "-f", first + " " + second]
  {
    var args := "rm -f " + (first + " " + second);
    CommandLineWords(flags, args);
    assert args == "rm" + " " + ("-f" + " " + (first + " " + second));
    ReadBareWord("rm", "-f" + " " + (first + " " + second));
    ReadBareWord("-f", first + " " + second);
    ReadBareWord(first, second);
    ReadLastBare(second);
    RemoveContainerWords(flags, first + " " + second, code);
  }

  // ---------------------------------------------------------------------------
  // runDaemon (index.js:96-128)

  /** A port, link or volume argument: one value or an array of values. */
  datatype Multi = Single(item: string) | Several(items: seq<string>)

  /** The run options: absent, one string, or an array of strings. */
  datatype RunOptions = NoOptions | OptionText(s: string) | OptionList(items: seq<string>)

  /** The arguments of `runDaemon`. */
  datatype Daemon = Daemon(
    containerName: string,
    containerImage: string,
    versionTag: Version,
    ports: Option<Multi>,
    links: Option<Multi>,
    volumes: Option<Multi>,
    runOpts: RunOptions)

  /**
   The values that get a flag: `[].concat(x)` behind the `if (x)` test, so
   an absent value and the (falsy) empty string add nothing.
   */
  function Elements(x: Option<Multi>): seq<string>
  {
    match x
    case None => []
    case Some(Single(item)) => if item == "" then [] else [item]
    case Some(Several(items)) => items
  }

  /** The fragment a value adds, starting with a space: ` <flag> <value>`. */
  function Fragment(flag: string, item: string): string
  {
    " " + flag + " " + item
  }

  /** One fragment per value, in input order. */
  function Fragments(flag: string, items: seq<string>): seq<string>
  {
    seq(|items|, i requires 0 <= i < |items| => Fragment(flag, items[i]))
  }

  /** The fragments joined with a space, so neighbouring flags are two spaces apart. */
  function FlagBlock(flag: string, items: seq<string>): string
  {
    Join(Fragments(flag, items), " ")
  }

  /** Where the fragment of value `i` starts inside its block. */
  function FragmentAt(flag: string, items: seq<string>, i: nat): nat
    requires i <= |items|
  {
    JoinOffset(Fragments(flag, items), " ", i)
  }

  function OptionsText(opts: RunOptions): string
  {
    match opts
    case NoOptions => ""
    case OptionText(s) => " " + s
    case OptionList(items) => " " + Join(items, " ")
  }

  const RunHead := "run -d --restart=always"

  /** The closing ` --name <container> <image[:tag]>` of every daemon command. */
  function NameTail(d: Daemon): string
  {
    " --name " + d.containerName + " " + JoinVersion(d.containerImage, d.versionTag)
  }

  /** The daemon command for the already resolved volume specs `volumes`. */
  function DaemonArgs(d: Daemon, volumes: seq<string>): string
  {
    RunHead
      + FlagBlock("-p", Elements(d.ports))
      + FlagBlock("--link", Elements(d.links))
      + FlagBlock("-v", volumes)
      + OptionsText(d.runOpts)
      + NameTail(d)
  }

  /** A volume spec as passed to docker: interpolated when interpolation is switched on. */
  function ResolveVolume(flags: Flags, home: Option<string>, volume: string): string
  {
    if flags.enableVolumeInterpolation then Interpolate(volume, HomeTable(home)) else volume
  }

  /** A spec with a `:` needs its host segment to be an existing directory; one without is not checked. */
  predicate VolumeOk(isDir: string -> bool, vol: string)
  {
    var parts := Split(vol, ':');
    |parts| <= 1 || isDir(parts[0])
  }

  function HostSegment(vol: string): string
  {
    Split(vol, ':')[0]
  }

  /**
   Resolves and checks the volume specs in order; the first spec that fails
   the check ends the walk with `VolumePathMissing` naming its host segment
   and the spec as the caller wrote it.
   */
  function ResolveVolumes(flags: Flags, home: Option<string>, isDir: string -> bool, volumes: seq<string>)
    : (r: Result<seq<string>>)
    ensures r.Returned? <==>
      forall i :: 0 <= i < |volumes| ==> VolumeOk(isDir, ResolveVolume(flags, home, volumes[i]))
    ensures r.Returned? ==>
      && |r.value| == |volumes|
      && forall i :: 0 <= i < |volumes| ==> r.value[i] == ResolveVolume(flags, home, volumes[i])
    ensures r.Threw? ==> exists i :: BadVolumeFailure(flags, home, isDir, volumes, i, r.failure)
  {
    if |volumes| == 0 then Returned([])
    else
      var vol := ResolveVolume(flags, home, volumes[0]);
      if !VolumeOk(isDir, vol) then
        assert BadVolumeFailure(flags, home, isDir, volumes, 0, VolumePathMissing(HostSegment(vol), volumes[0]));
        Threw(VolumePathMissing(HostSegment(vol), volumes[0]))
      else
        match ResolveVolumes(flags, home, isDir, volumes[1..])
        case Returned(rest) =>
          assert forall i :: 1 <= i < |volumes| ==> volumes[i] == volumes[1..][i - 1];
          Returned([vol] + rest)
        case Threw(failure) =>
          BadVolumeFailureShift(flags, home, isDir, volumes, failure);
          Threw(failure)
  }

  /** `failure` is the error for spec `i`, the first spec that fails the check. */
  ghost predicate BadVolumeFailure(flags: Flags, home: Option<string>, isDir: string -> bool,
                                   volumes: seq<string>, i: int, failure: Failure)
  {
    && FirstBadVolume(flags, home, isDir, volumes, i)
    && failure == VolumePathMissing(HostSegment(ResolveVolume(flags, home, volumes[i])), volumes[i])
  }

  lemma BadVolumeFailureShift(flags: Flags, home: Option<string>, isDir: string -> bool,
                              volumes: seq<string>, failure: Failure)
    requires |volumes| > 0 && VolumeOk(isDir, ResolveVolume(flags, home, volumes[0]))
    requires exists j :: BadVolumeFailure(flags, home, isDir, volumes[1..], j, failure)
    ensures exists i :: BadVolumeFailure(flags, home, isDir, volumes, i, failure)
  {
    var j :| BadVolumeFailure(flags, home, isDir, volumes[1..], j, failure);
    assert BadVolumeFailure(flags, home, isDir, volumes, j + 1, failure);
  }

  /** Spec `i` is the first that fails the check. */
  ghost predicate FirstBadVolume(flags: Flags, home: Option<string>, isDir: string -> bool, volumes: seq<string>, i: int)
  {
    && 0 <= i < |volumes|
    && !VolumeOk(isDir, ResolveVolume(flags, home, volumes[i]))
    && forall j :: 0 <= j < i ==> VolumeOk(isDir, ResolveVolume(flags, home, volumes[j]))
  }

  /**
   Starts a detached, always-restarting container. A volume spec that fails
   the check throws before anything reaches the shell; otherwise the command
   holds the resolved specs.
   */
  function RunDaemon(flags: Flags, home: Option<string>, isDir: string -> bool, d: Daemon, code: int)
    : (o: Outcome<()>)
    ensures o.issued.None? <==>
      exists i :: 0 <= i < |Elements(d.volumes)|
        && !VolumeOk(isDir, ResolveVolume(flags, home, Elements(d.volumes)[i]))
    ensures o.issued.None? ==>
      && o.result.Threw?
      && exists i :: BadVolumeFailure(flags, home, isDir, Elements(d.volumes), i, o.result.failure)
    ensures o.issued.Some? ==> exists resolved: seq<string> ::
      && |resolved| == |Elements(d.volumes)|
      && (forall i :: 0 <= i < |resolved| ==> resolved[i] == ResolveVolume(flags, home, Elements(d.volumes)[i]))
      && Ran(o, flags, DaemonArgs(d, resolved), code)
  {
    match ResolveVolumes(flags, home, isDir, Elements(d.volumes))
    case Threw(failure) => Outcome(None, Threw(failure))
    case Returned(resolved) => RunDocker(flags, DaemonArgs(d, resolved), code)
  }

  /** A volume spec without a colon passes the check whatever the file system says. */
  lemma NoColonNeverChecked(isDir: string -> bool, vol: string)
    requires ':' !in vol
    ensures VolumeOk(isDir, vol)
  {
  }

  /** With interpolation switched off a volume spec reaches docker exactly as written. */
  lemma InterpolationSwitchedOff(flags: Flags, home: Option<string>, volume: string)
    requires !flags.enableVolumeInterpolation
    ensures ResolveVolume(flags, home, volume) == volume
  {
  }

  /**
   A flag block is exactly its fragments in input order: fragment `i` sits
   at its offset and the next one follows after one separating space.
   */
  lemma FlagBlockLayout(flag: string, items: seq<string>)
    ensures |items| == 0 ==> FlagBlock(flag, items) == ""
    ensures |items| > 0 ==> FragmentAt(flag, items, 0) == 0
    ensures |items| > 0 ==>
      |FlagBlock(flag, items)| == FragmentAt(flag, items, |items| - 1) + |Fragment(flag, items[|items| - 1])|
    ensures forall i :: 0 <= i < |items| ==>
      OccursAt(FlagBlock(flag, items), Fragment(flag, items[i]), FragmentAt(flag, items, i))
    ensures forall i :: 0 <= i < |items| - 1 ==>
      OccursAt(FlagBlock(flag, items), " ", FragmentAt(flag, items, i) + |Fragment(flag, items[i])|)
    ensures forall i, j :: 0 <= i < j < |items| ==>
      FragmentAt(flag, items, i) + |Fragment(flag, items[i])| < FragmentAt(flag, items, j)
  {
    var frags := Fragments(flag, items);
    if |items| > 0 {
      JoinLength(frags, " ");
    }
    forall i | 0 <= i < |items|
      ensures OccursAt(FlagBlock(flag, items), Fragment(flag, items[i]), FragmentAt(flag, items, i))
      ensures i < |items| - 1 ==>
        OccursAt(FlagBlock(flag, items), " ", FragmentAt(flag, items, i) + |Fragment(flag, items[i])|)
    {
      JoinPartAt(frags, " ", i);
    }
    forall i, j | 0 <= i < j < |items|
      ensures FragmentAt(flag, items, i) + |Fragment(flag, items[i])| < FragmentAt(flag, items, j)
    {
      JoinOffsetMonotone(frags, " ", i, j);
    }
  }

  /** Start of the `--link` block, of the `-v` block, and of the run options. */
  function LinksStart(d: Daemon): nat
  {
    |RunHead| + |FlagBlock("-p", Elements(d.ports))|
  }

  function VolumesStart(d: Daemon): nat
  {
    LinksStart(d) + |FlagBlock("--link", Elements(d.links))|
  }

  function OptionsStart(d: Daemon, volumes: seq<string>): nat
  {
    VolumesStart(d) + |FlagBlock("-v", volumes)|
  }

  /** A flag block placed between `pre` and `post` keeps its layout, shifted by `|pre|`. */
  lemma BlockWithin(pre: string, flag: string, items: seq<string>, post: string)
    ensures forall i :: 0 <= i < |items| ==>
      && OccursAt(pre + FlagBlock(flag, items) + post, Fragment(flag, items[i]), |pre| + FragmentAt(flag, items, i))
      && |pre| + FragmentAt(flag, items, i) + |Fragment(flag, items[i])| <= |pre| + |FlagBlock(flag, items)|
  {
    forall i | 0 <= i < |items|
      ensures OccursAt(pre + FlagBlock(flag, items) + post, Fragment(flag, items[i]), |pre| + FragmentAt(flag, items, i))
      ensures FragmentAt(flag, items, i) + |Fragment(flag, items[i])| <= |FlagBlock(flag, items)|
    {
      FragmentWithin(pre, flag, items, post, i);
    }
  }

  lemma FragmentWithin(pre: string, flag: string, items: seq<string>, post: string, i: nat)
    requires i < |items|
    ensures OccursAt(pre + FlagBlock(flag, items) + post, Fragment(flag, items[i]), |pre| + FragmentAt(flag, items, i))
    ensures FragmentAt(flag, items, i) + |Fragment(flag, items[i])| <= |FlagBlock(flag, items)|
  {
    var frags := Fragments(flag, items);
    JoinPartAt(frags, " ", i);
    assert frags[i] == Fragment(flag, items[i]);
    OccursWithin(pre, FlagBlock(flag, items), post, Fragment(flag, items[i]), FragmentAt(flag, items, i));
  }

  /** A daemon command starts with `run -d --restart=always`, ends with the name tail, and has the options before it. */
  lemma DaemonArgsFrame(d: Daemon, volumes: seq<string>)
    ensures var args := DaemonArgs(d, volumes);
      && |RunHead| <= |args| && args[..|RunHead|] == "run -d --restart=always"
      && |NameTail(d)| <= |args| && args[|args| - |NameTail(d)|..] == NameTail(d)
      && OptionsStart(d, volumes) + |OptionsText(d.runOpts)| + |NameTail(d)| == |args|
      && OccursAt(args, OptionsText(d.runOpts), OptionsStart(d, volumes))
  {
    var blocks := FlagBlock("-p", Elements(d.ports)) + FlagBlock("--link", Elements(d.links)) + FlagBlock("-v", volumes);
    assert DaemonArgs(d, volumes) == RunHead + blocks + OptionsText(d.runOpts) + NameTail(d);
    assert OptionsStart(d, volumes) == |RunHead| + |blocks|;
    FrameOf(RunHead, blocks, OptionsText(d.runOpts), NameTail(d));
  }

  /** The pieces of `head + body + mid + tail`, found at their offsets. */
  lemma FrameOf(head: string, body: string, mid: string, tail: string)
    ensures var s := head + body + mid + tail;
      && s[..|head|] == head
      && s[|s| - |tail|..] == tail
      && s[|head| + |body|..|head| + |body| + |mid|] == mid
  {
    var s := head + body + mid + tail;
    assert s == (head + body) + mid + tail;
  }

  /** The `-p` fragments, one per port in input order, all before the `--link` block. */
  lemma DaemonPortsLayout(d: Daemon, volumes: seq<string>)
    ensures var args := DaemonArgs(d, volumes); var ports := Elements(d.ports);
      forall i :: 0 <= i < |ports| ==>
        && OccursAt(args, Fragment("-p", ports[i]), |RunHead| + FragmentAt("-p", ports, i))
        && |RunHead| + FragmentAt("-p", ports, i) + |Fragment("-p", ports[i])| <= LinksStart(d)
  {
    var ports := Elements(d.ports);
    var post := FlagBlock("--link", Elements(d.links)) + FlagBlock("-v", volumes) + OptionsText(d.runOpts) + NameTail(d);
    assert DaemonArgs(d, volumes) == RunHead + FlagBlock("-p", ports) + post;
    BlockWithin(RunHead, "-p", ports, post);
  }

  /** The `--link` fragments, one per link in input order, between the ports and the volumes. */
  lemma DaemonLinksLayout(d: Daemon, volumes: seq<string>)
    ensures var args := DaemonArgs(d, volumes); var links := Elements(d.links);
      forall i :: 0 <= i < |links| ==>
        && OccursAt(args, Fragment("--link", links[i]), LinksStart(d) + FragmentAt("--link", links, i))
        && LinksStart(d) + FragmentAt("--link", links, i) + |Fragment("--link", links[i])| <= VolumesStart(d)
  {
    var links := Elements(d.links);
    var pre := RunHead + FlagBlock("-p", Elements(d.ports));
    var post := FlagBlock("-v", volumes) + OptionsText(d.runOpts) + NameTail(d);
    assert DaemonArgs(d, volumes) == pre + FlagBlock("--link", links) + post;
    BlockWithin(pre, "--link", links, post);
  }

  /** The `-v` fragments, one per volume in input order, between the links and the run options. */
  lemma DaemonVolumesLayout(d: Daemon, volumes: seq<string>)
    ensures var args := DaemonArgs(d, volumes);
      forall i :: 0 <= i < |volumes| ==>
        && OccursAt(args, Fragment("-v", volumes[i]), VolumesStart(d) + FragmentAt("-v", volumes, i))
        && VolumesStart(d) + FragmentAt("-v", volumes, i) + |Fragment("-v", volumes[i])| <= OptionsStart(d, volumes)
  {
    var pre := RunHead + FlagBlock("-p", Elements(d.ports)) + FlagBlock("--link", Elements(d.links));
    var post := OptionsText(d.runOpts) + NameTail(d);
    assert DaemonArgs(d, volumes) == pre + FlagBlock("-v", volumes) + post;
    BlockWithin(pre, "-v", volumes, post);
  }
}
