# dockerlib command layer in Dafny

This project models the command-building core of `dockerlib`, a Node.js module in the single file `index.js`. The module drives the `docker` command-line tool and looks up tags in a registry. The model covers three parts:

- **Image references and quoting.** `joinVersion` gives `name:version` when the version is a non-empty string and `name` otherwise. `quote` wraps an argument in single quotes and escapes nothing.
- **The executor and the builders.**
  - `runDocker` puts `docker ` in front of the arguments. When the `sudo` switch is on it also puts `sudo ` in front.
  - It runs the line silently unless `verbose` is on and `sudo` is off.
  - It throws `Command [<line>] returned code <n>` when the exit status is not zero.
  - The builders `login`, `tagRemoteName`, `tag`, `push`, `pull`, `build`, `removeContainer`, `runDaemon` and `kill` each produce one exact argument string.
  - `runDaemon` first runs every volume spec through `$token` interpolation, when that is switched on. A spec that contains a `:` and whose host segment (the text before the first `:`) is not a directory makes it throw; a spec without a `:` is not checked. This happens before anything reaches the shell.
- **The registry request.** `loadRegistryTags` defaults the port. It builds the options `{host, port, path: /v1/repositories/<image>/tags, method: GET}` and lays the caller's options over them. It picks HTTPS exactly when the port is the number 443.

The model is functional. The outside world appears only as parameters:
- the shell's exit status is an `int`;
- `shell.test("-d", path)` is a function `isDir: string -> bool`;
- the home directory is an `Option<string>`;
- the URL parser's fields are a `ParsedUrl` value.

Every docker operation (`runDocker` and the builders of `exports.docker`) returns an `Outcome`. It records the shell call the operation made, or `None` when it threw before reaching the shell. It also records whether the operation returned a value or threw a `Failure`. The volume check returns a `Result` of its own, and the registry part returns a `Request` descriptor and makes no shell call.

Modules, one per concern of `index.js`:

| file | module | what |
|---|---|---|
| text.dfy | `Text` | `Option`, `Quote`, `Array.join`, `String.split` on one character, last-occurrence search |
| decimal.dfy | `Decimal` | how JavaScript turns an integer into a string, and reading it back |
| image_ref.dfy | `ImageRef` | `joinVersion` and splitting a reference back into name and tag |
| interpolation.dfy | `Interpolation` | `$token` substitution |
| shell.dfy | `Shell` | how the shell cuts a command line into words: blanks and single quotes |
| executor.dfy | `Executor` | switches, `runDocker`, failures and their messages |
| docker.dfy | `Docker` | every builder of `exports.docker`, volume checking and the layout of the daemon command |
| registry.dfy | `Registry` | the request descriptor and transport choice of `loadRegistryTags` |

The model follows the code in these behaviours, even where the code looks unintended:

- The default port compares the parsed protocol with `"http"`. Node's parser returns `"http:"`, so a URL such as `http://host/` gets port 443 and the HTTPS client. `Registry.PlainHttpUrlGetsHttps` proves this.
- An explicit port stays the parser's string. A string is never identical (`===`) to the number 443, so `https://host:443/` uses the plain HTTP client. `Registry.ExplicitPortGetsHttp` proves this.
- The client is chosen from the parsed URL's port, not from a `port` in the caller's options. `Registry.CallerPortDoesNotChooseTransport` proves this.
- `login` without a server leaves a trailing space. With a server there are two spaces before the server.
- In `runDaemon`, two flags of the same kind (two `-p`, two `--link` or two `-v`) are separated by two spaces, because each fragment starts with a space and the fragments are joined with one. Where one kind follows another, a single space separates them, because each block is appended directly after the previous one.
- `kill` does not quote the container name, but `removeContainer` does. A name with a blank reaches docker as two words through `kill` and as one through `removeContainer`, as `Docker.KillSplitsName` proves.

## Model

| member | source | states |
|---|---|---|
| Text.Quote | index.js:23-25 | the result is the argument with one single quote added on each side and nothing else changed |
| Text.JoinLayout | index.js:99-101 | `join` puts every part at its offset, in input order, with exactly one separator between neighbours; the total length is the last part's offset plus its length |
| Text.JoinOffsetMonotone | index.js:99-101 | in a joined string, part `i` and the separator after it end before part `j` starts, for `i < j` |
| Text.Split | index.js:111 | `split(":")` gives at least one piece; more than one exactly when the text has a colon; the first piece is the colon-free text before the first colon |
| Text.SplitJoin | index.js:111 | splitting on a character undoes joining with it, when no part contains that character |
| Decimal.IntToString | index.js:19 | the decimal text of an exit status starts with `-` exactly for negative values, is digits otherwise, and has no leading zero unless it is `0`; with the round trip this pins `String(code)` |
| Decimal.IntToStringRoundTrip | index.js:19 | reading the decimal text of an integer back gives the integer |
| ImageRef.JoinVersionSplit | index.js:27-32 | with a non-empty, colon-free version, splitting the reference at its last colon gives back exactly the name and the version |
| ImageRef.JoinVersionUntagged | index.js:27-32 | an absent, empty or non-string version gives the name itself, colons included; a colon-free name then splits into itself and an empty tag |
| Interpolation.TokenLength | index.js:39 | the token after `$` is the longest run of ASCII letters and digits |
| Interpolation.InterpolateToken | index.js:39-43 | a maximal `$token` becomes the table's string or number under the lower-cased name, or stays as written; scanning resumes right after it |
| Interpolation.InterpolateLiteral | index.js:39 | a character that does not start a token is copied unchanged |
| Interpolation.InterpolatePlainText | index.js:38-45 | text with no `$` is returned unchanged |
| Interpolation.InterpolateUnresolved | index.js:41-42 | when the table holds no string or number, every spec is returned unchanged, `$` included |
| Interpolation.HomeTokenReplaced | index.js:110 | `$HOME`, in any letter case, followed by a token-free path, becomes the home directory followed by that path |
| Interpolation.OtherTokenKept | index.js:110 | a token that does not name `home` (such as `$FOO`) is kept together with its `$` |
| Interpolation.NoHomeKeepsEverything | index.js:110 | with no home directory known, interpolation leaves every spec unchanged |
| Executor.CommandLine | index.js:7-13 | reading the command line back recovers exactly the sudo switch and the docker arguments: it is `[sudo ]docker <args>` |
| Executor.RunDocker | index.js:6-21 | the shell always gets `[sudo ]docker <args>`; output is shown exactly when verbose and not sudo; a call throws exactly when the exit status is non-zero; the failure carries that command line and status |
| Executor.InitialFlagsRunSilently | index.js:47-50 | with the switches as the module sets them at load time, the shell reads `docker` followed by the argument words, without sudo, and output is suppressed |
| Executor.CommandLineWords | index.js:7-13 | the shell reads the command line as `docker`, preceded by `sudo` when the switch is on, followed by exactly the words of the arguments |
| Executor.CommandFailedMessage | index.js:19 | the message of a failed command yields the exact command line and exit status again |
| Executor.Outcome.Then | index.js:63-64 | a builder's return value replaces the executor's only when the command did not throw; the shell call is kept |
| Docker.Login | index.js:54-57 | issues `login -u '<user>' ` with a trailing space when there is no server, and `login -u '<user>'  '<server>'` with a double space when there is one |
| Docker.TagRemoteName | index.js:59-65 | issues `tag '<local[:v]>' '<remote[:v]>'` with the same version on both sides, and returns the remote reference |
| Docker.Tag | index.js:67-72 | issues `tag '<image>' '<image[:t]>'` and returns `<image[:t]>` |
| Docker.Push | index.js:74-77 | issues `push '<ref>'` |
| Docker.Pull | index.js:79-83 | issues `pull '<image[:tag]>'` |
| Docker.Build | index.js:85-89 | issues `build -t <name> <dir>` unquoted; the directory is `.` when absent or empty |
| Docker.RemoveContainer | index.js:91-94 | issues `rm -f '<name>'` |
| Docker.Kill | index.js:130-132 | issues `rm -f <name>` without quotes |
| Docker.LoginWords | index.js:54-57 | docker receives `login -u <user>` and then the server when one is given; the trailing blank and the double blank add no word |
| Docker.TagRemoteNameWords | index.js:59-65 | docker receives `tag`, the local reference and the remote reference, each one word, with the same version on both |
| Docker.TagWords | index.js:67-72 | docker receives `tag`, the image and the tagged reference, each one word |
| Docker.PushWords | index.js:74-77 | docker receives `push` and the reference as one word |
| Docker.PullWords | index.js:79-83 | docker receives `pull` and `<image[:tag]>` as one word |
| Docker.BuildWords | index.js:85-89 | for a non-empty name and a directory made of letters, digits and `-_./:@%+,=`, docker receives `build -t <name> <dir>`, `.` standing in for an absent or empty directory |
| Docker.RemoveContainerWords | index.js:91-94 | docker receives `rm -f` and the container name as one word, blanks included |
| Docker.KillWords | index.js:130-132 | for a non-empty name made of letters, digits and `-_./:@%+,=`, docker receives `rm -f <name>` |
| Docker.KillSplitsName | index.js:130-132 | a name of two non-empty halves made of letters, digits and `-_./:@%+,=`, joined by a blank, reaches docker as two words through `kill` but as one word through `removeContainer` |
| Docker.KillIsUnquotedRemove | index.js:93-131 | killing a quoted name is removing the name; `kill` and `removeContainer` never issue the same line for one name |
| Docker.ResolveVolumes | index.js:108-117 | all specs resolve exactly when each passes the directory check, keeping order and count; otherwise the first failing spec gives `VolumePathMissing(host segment, spec as written)` |
| Docker.RunDaemon | index.js:96-128 | the shell is never reached exactly when some volume spec fails the check, and then the first failure is thrown; otherwise the daemon command holds the resolved specs, one per input spec |
| Docker.NoColonNeverChecked | index.js:111-112 | a spec without `:` passes whatever the directory test says |
| Docker.InterpolationSwitchedOff | index.js:110 | with interpolation switched off, a volume spec reaches docker as written |
| Docker.FlagBlockLayout | index.js:98-102 | the flag block holds one ` <flag> <value>` fragment per value in input order, one space apart, and nothing else |
| Docker.DaemonArgsFrame | index.js:97-125 | the daemon command starts with `run -d --restart=always`, ends with ` --name <container> <image[:tag]>`, and the run options come right before that tail |
| Docker.DaemonPortsLayout | index.js:98-102 | every port has its ` -p <port>` fragment in input order, and all come before the `--link` block |
| Docker.DaemonLinksLayout | index.js:103-107 | every link has its ` --link <link>` fragment in input order, between the ports and the volumes |
| Docker.DaemonVolumesLayout | index.js:108-117 | every resolved volume has its ` -v <spec>` fragment in input order, between the links and the run options |
| Registry.Overlay | index.js:151-155 | the caller's keys are added; on a shared key the caller's value wins; other defaults are kept |
| Registry.PrepareRequest | index.js:137-162 | HTTPS exactly when there is no explicit port and the protocol is not `"http"`; path `/v1/repositories/<image>/tags`, method GET, host (null when the URL has no hostname) and port defaults unless the caller overrides them; the port defaults to 80 only for protocol `"http"`, else 443 |
| Registry.TransportFollowsPort | index.js:162 | HTTPS exactly when the resolved port is the number 443 |
| Registry.PlainHttpUrlGetsHttps | index.js:140-141 | a parsed `http:` URL without a port gets port 443 and the HTTPS client |
| Registry.ExplicitPortGetsHttp | index.js:139-162 | any explicit port, `443` included, selects the plain HTTP client |
| Registry.CallerPortDoesNotChooseTransport | index.js:151-162 | a `port` in the caller's options replaces the descriptor's port but does not change the client |

## Left out

- Running commands: `shell.exec` and its captured output are not modelled. The exit status is a parameter, so every statement holds for any status the shell returns.
- Logging: all `console` output is left out. This covers the `extraVerbose` traces, the printing of output on failure when `verbose` is on, and the registry's `options:` line. Logging has no effect on the returned values.
- `getUserHome` (index.js:34-36): reading the environment is left out. The home directory is a parameter.
- `shell.test("-d", ...)`: the file system is left out. The directory test is a parameter.
- URL parsing: `url.parse` is a foreign parser. Its `hostname`, `protocol` and `port` fields are inputs.
- The HTTP(S) request, the response stream, the callback and `JSON.parse` of each chunk (index.js:162-172) are network I/O and a foreign parser.
- Non-string values where the code expects strings are left out:
  - port, link and volume entries are strings;
  - nested arrays are not flattened;
  - a `null` server in `login` is not modelled.
  JavaScript would convert such values with `String(...)`.
- Numbers are integers. A non-integral number in the interpolation table, or as an exit status, is not modelled.
- Decimal.IntToString: covers only integers below 10^21 in magnitude. JavaScript prints larger numbers in exponent form (`1e+21`), while the model prints every digit. The same limit applies to numbers that interpolation substitutes.
- The global `vol`: `runDaemon` assigns the resolved spec to the undeclared variable `vol` (index.js:110), which creates a global in non-strict code. The model keeps the value local and drops that side effect.
- Shell syntax beyond blanks and single quotes is not read. Double quotes, backslashes, `$` expansion, globbing, comments and operators such as `;` are left out. So the lemmas about unquoted arguments (Docker.BuildWords, Docker.KillWords, Docker.KillSplitsName) cover only names made of letters, digits and `-_./:@%+,=`, which the shell leaves alone. An unquoted name such as `x;reboot` or `$HOME` would be run or expanded by the shell, and the model says nothing about it.
- Docker.LoginWords, Docker.TagWords, Docker.TagRemoteNameWords, Docker.PushWords, Docker.PullWords, Docker.RemoveContainerWords: these cover only arguments without a single quote. `quote` escapes nothing, so a quote inside an argument ends the quoting early and the words differ.
- The interpolation table has only its own keys. Inherited keys such as `constructor` hold functions, which are never substituted, so they have no effect.
