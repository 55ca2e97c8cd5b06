# Laravel Sail SSL proxy: install command, path helpers and the domain check

This project models the core of the Laravel package that puts a Caddy reverse proxy with
locally issued TLS certificates in front of a Laravel Sail application. It has three parts.

- `InstallCommand::handle` (the `install` Artisan command) does five steps, and a sixth on request:
  - it makes the volume directory for certificates and authorities, each with a `.gitignore`;
  - it writes a Caddyfile rendered for the application's service;
  - it reads `docker-compose.yml`;
  - it merges in a `<service>.proxy` service and two named volumes, and removes the target
    service's host-port bindings on 80 and 443;
  - it writes the file back;
  - with `--middleware`, it patches `TrustProxies.php` with a stub before each line-final
    closing brace.

  It returns `SUCCESS` (0), or `FAILURE` (1) at the first step that throws.
- `Path::toAbsolute`, `Path::isAbsolute` and `Path::isStream` are the path helpers the first step
  relies on.
- `SailSslProxyController::__invoke` is the endpoint Caddy's on-demand TLS asks before it issues a
  certificate. It answers 200 when the `domain` query value is in the configured allow-list, and
  503 otherwise.

The modules:

- **Wrappers**: `Option`.
- **Text**: the byte-string functions `Str::startsWith`, `strpos`, `explode`, `implode` and
  `str_replace`.
- **PhpArray**: PHP's ordered arrays. These are entry lists whose string keys PHP casts to
  integers, with `[$k] = $v`, `unset`, the union `+`, `array_slice` and `(array)`.
- **ComposeMerge**: the merge. `Merged` is its specification; `IncludeSslProxySettings` and the
  port loop `UnsetConflictingPorts` are proved against it.
- **Caddyfile**: the template substitution.
- **TrustProxies**: the `preg_replace` patch.
- **Path**: the path helpers.
- **Disk**: the file system, as a value `Disk` and as the mutable `FileSystem` class the steps
  write through.
- **Install**: each step as a method on `FileSystem`, proved against a function on the disk, and
  `Handle`, proved against `Run`.
- **InstallProperties**: what a run promises.
- **Authorization**: the controller.

Several services are parameters of the model, not code in it:

- `realpath`, `getcwd`, `DIRECTORY_SEPARATOR` and `stream_get_wrappers()`;
- `Yaml::parse` and `Yaml::dump`;
- the bundled Caddyfile template and middleware stub.

The model follows the code where it behaves in ways a reader might not expect:

- The controller denies with 503 (Service Unavailable), not with a client-error status.
- Ports that survive the merge keep their original keys. PHP's `unset` does not reindex, so a
  list with a hole is dumped as a map.
- The TrustProxies pattern runs in multi-line mode without a limit. It therefore inserts the stub
  before every `}` that ends a line, not only before the class's last brace.
- `array_slice($data, 0)` renumbers integer top-level keys from 0. It is more than a copy.
- An absolute `--directory` such as `/srv/ssl` is provisioned at `/srv/ssl` only when `/srv/ssl`
  or `/srv` already exists. Otherwise `Path::toAbsolute` resolves no prefix but the empty one, and
  the directory lands under the working directory, at `<cwd>/srv/ssl`
  (`Path.RootedPathUnderWorkingDirectory`). Either way it is mounted as `.//srv/ssl`, which is a
  path inside the project (`ComposeMerge.AbsoluteDirectoryMountedRelative`).
- The ports loop removes only the bindings `80`, `443`, `80:…`, `443:…` and `${APP_PORT:-80}:…`,
  and long-syntax entries whose `published` is 80 or 443. Bindings with a host address or another
  variable, such as `127.0.0.1:80:80`, `0.0.0.0:443:443` or `${APP_SSL_PORT:-443}:443`, survive
  (`ComposeMerge.IpBoundPortsSurvive`).

Several failure paths depend on the command running under Laravel's error handler, which turns PHP
warnings and notices into `ErrorException`. The model assumes this handler. In plain PHP each of
these would warn and carry on:

- a `published` value that is an array (array-to-string conversion) fails the merge;
- a `ports` value that is not iterable (`foreach` over a scalar) fails the merge;
- a failed first `.gitignore` write skips the second;
- a missing Caddyfile template or TrustProxies stub (`file_get_contents` of a missing file) fails
  its step.

## Model

| member | source | states |
|---|---|---|
| PhpArray.ToKey | src/ArtisanCommands/InstallCommand.php:295-296 | a string subscript becomes an integer key only when it is the decimal spelling of that 64-bit integer (so `"012"` and `"-0"` stay strings); otherwise it stays the same string |
| PhpArray.ToKeyOfDecimal | src/ArtisanCommands/InstallCommand.php:295-296 | the decimal spelling of every 64-bit integer is cast to that integer |
| PhpArray.DecimalOfIntegerKey | src/ArtisanCommands/InstallCommand.php:295-296 | a string that is cast is the decimal spelling of its value, within 64-bit bounds |
| PhpArray.DigitsRoundTrip | src/ArtisanCommands/InstallCommand.php:295-296 | canonical digits read as a number and spelt again give the same digits |
| PhpArray.NatDigitsCanonical | src/ArtisanCommands/InstallCommand.php:295-296 | a number's digits are canonical, have no leading zero, and read back as the number |
| PhpArray.Put | src/ArtisanCommands/InstallCommand.php:298-299 | `$a[$k] = $v` keeps every key in its place and every other entry unchanged; a new key is appended last |
| PhpArray.Without | src/ArtisanCommands/InstallCommand.php:296 | the entries left of the right operand of `+` are exactly those whose key differs from the left operand's |
| PhpArray.Renumber | src/ArtisanCommands/InstallCommand.php:260 | `array_slice` keeps length, values, string keys and the kind of every key, and every integer key it gives is at least the start value |
| PhpArray.RenumberInOrder | src/ArtisanCommands/InstallCommand.php:260 | `array_slice` gives the integer keys the values `start`, `start + 1`, … in the order they occur: each gets the start plus the number of integer keys before it |
| PhpArray.ToArray | src/ArtisanCommands/InstallCommand.php:243 | the `(array)` cast of a parsed value is a well-formed array |
| PhpArray.List | src/ArtisanCommands/InstallCommand.php:272-289 | a literal list has keys 0, 1, … holding its elements in order |
| PhpArray.GetPutSame | src/ArtisanCommands/InstallCommand.php:298-299 | reading a key just written gives the written value |
| PhpArray.GetPutOther | src/ArtisanCommands/InstallCommand.php:298-299 | writing one key leaves every other key's value as it was |
| PhpArray.PutExisting | src/ArtisanCommands/InstallCommand.php:298-299 | writing back a key's current value changes nothing |
| PhpArray.PutPut | src/ArtisanCommands/InstallCommand.php:296 | a second write to a key overwrites the first in place |
| PhpArray.PutCommute | src/ArtisanCommands/InstallCommand.php:296-298 | writes to two different keys, one of them present, commute |
| PhpArray.DeleteBetween | src/ArtisanCommands/InstallCommand.php:310 | `unset` removes exactly the entry with that key and closes the gap, keeping the other keys |
| PhpArray.PrependUnionAgain | src/ArtisanCommands/InstallCommand.php:296 | `[$k => $v] + $a` is idempotent |
| PhpArray.RenumberDistinct | src/ArtisanCommands/InstallCommand.php:260 | `array_slice` of an array with distinct keys has distinct keys |
| PhpArray.SliceWellFormed | src/ArtisanCommands/InstallCommand.php:260 | `array_slice` of a PHP array is a PHP array at every level |
| PhpArray.RenumberPut | src/ArtisanCommands/InstallCommand.php:260 | `array_slice` commutes with writing a string key |
| PhpArray.RenumberAgain | src/ArtisanCommands/InstallCommand.php:260 | `array_slice` of its own result changes nothing |
| PhpArray.GetRenumber | src/ArtisanCommands/InstallCommand.php:260 | every string key reads the same after `array_slice` |
| Text.FindFirst | src/Helpers/Path.php:90-94 | `strpos` finds the first occurrence, and finds none exactly when the text has none |
| Text.Split | src/Helpers/Path.php:25 | `explode` yields at least one piece |
| Text.SplitJoin | src/Helpers/Path.php:25 | `implode` undoes `explode`, and no piece holds the separator |
| Text.ReplaceAllPieces | src/ArtisanCommands/InstallCommand.php:220 | replacing every occurrence is cutting at every occurrence and joining with the replacement; joining with the token gives back the text |
| Text.ReplaceAllAbsent | src/ArtisanCommands/InstallCommand.php:220 | a text without the token is not changed |
| Caddyfile.Render | src/ArtisanCommands/InstallCommand.php:220 | the template, cut at every `LARAVEL_APP_SERVICE_HOST`, joins back to the template, has no placeholder left in any piece, and joins with the service name to the rendered file |
| Caddyfile.RenderWithoutPlaceholder | src/ArtisanCommands/InstallCommand.php:220 | a template without the placeholder is written as it is |
| TrustProxies.SpaceRunEnd | src/ArtisanCommands/InstallCommand.php:356 | `[\s\n\r]*` takes the longest run of white space |
| TrustProxies.Backtrack | src/ArtisanCommands/InstallCommand.php:356 | giving characters back stops at the last place where multi-line `$` holds, or reports that there is none |
| TrustProxies.MatchEndIsLongestMatch | src/ArtisanCommands/InstallCommand.php:356 | an attempt at a position matches exactly when a `}` followed by white space ending at a line end starts there, and it ends at the longest such match |
| TrustProxies.PatchInsertsStubs | src/ArtisanCommands/InstallCommand.php:356 | the text cuts into chunks that join back to it, and the patch is those chunks joined by the stub; chunk `n >= 1` starts at the offset of the scan's `n`-th match, with its `}`, and every offset where the pattern matches starts a chunk |
| TrustProxies.MatchStartsAreTheMatches | src/ArtisanCommands/InstallCommand.php:356 | the scan finds a match, left to right, at exactly the offsets where the pattern matches |
| TrustProxies.ChunksCoverText | src/ArtisanCommands/InstallCommand.php:356 | the chunks of the scan cover the rest of the text |
| TrustProxies.ChunksJoinedByStub | src/ArtisanCommands/InstallCommand.php:356 | the scan puts the stub between consecutive chunks and nowhere else |
| TrustProxies.PatchedSkips | src/ArtisanCommands/InstallCommand.php:356 | positions where no match starts are copied unchanged |
| TrustProxies.ClosingBraceGetsTheStub | src/ArtisanCommands/InstallCommand.php:356 | a file whose only match is its final `}` line gets the stub inserted just before that brace |
| Path.DropDots | src/Helpers/Path.php:25 | `array_filter` keeps every part that is not `.` as many times as it occurs, and drops every `.` |
| Path.DropDotsAppend | src/Helpers/Path.php:25 | the filter works part by part and keeps the order: a concatenation is filtered piecewise, and one part is dropped exactly when it is `.` |
| Path.Segments | src/Helpers/Path.php:21-25 | no segment is `.` or holds `/` |
| Path.ResolvableLength | src/Helpers/Path.php:29-36 | the loop stops at the longest prefix `realpath` resolves, or at none |
| Path.ToAbsolute | src/Helpers/Path.php:19-47 | `toAbsolute` returns `Absolute` of its input |
| Path.Resolve | src/Helpers/Path.php:29-46 | the pop-and-unshift loop and the join after it compute `Resolved` |
| Path.AbsoluteOfExistingPath | src/Helpers/Path.php:29-33 | a path that resolves as a whole becomes what it resolves to |
| Path.AbsoluteOfUnresolvablePath | src/Helpers/Path.php:38-44 | when no prefix resolves, every segment is appended to the working directory |
| Path.RootedPathUnderWorkingDirectory | src/Helpers/Path.php:29-44 | a rooted path with no longer prefix that resolves, where `realpath("")` is the working directory, ends up below the working directory |
| Path.IsStream | src/Helpers/Path.php:88-99 | a path without `://` is no stream, and a stream starts with a registered wrapper name followed by `://` |
| Path.StreamScheme | src/Helpers/Path.php:88-99 | `scheme://rest` is a stream exactly when the scheme is registered |
| Path.IsAbsolute | src/Helpers/Path.php:58-66 | a path that `realpath` maps to itself under loose `==`, or an existing stream path, is absolute |
| Path.IsAbsoluteBySpelling | src/Helpers/Path.php:68-76 | past the first two tests, a path is absolute exactly when it starts with a drive prefix, `/` or `\` |
| Path.RootedIsAbsolute | src/Helpers/Path.php:76 | a path starting with `/` or `\` is absolute |
| Path.ZeroIsAbsoluteWhenUnresolved | src/Helpers/Path.php:64 | `"0"` is absolute when `realpath` fails, because `false == "0"` |
| Path.AbsoluteIsAbsolute | src/Helpers/Path.php:19-77 | with a rooted `realpath` and working directory, `toAbsolute` always gives a path `isAbsolute` accepts |
| Authorization.InArray | src/Http/Controllers/SailSslProxyController.php:26 | loose `in_array` holds exactly when some entry is loosely equal to the needle |
| Authorization.Invoke | src/Http/Controllers/SailSslProxyController.php:24-31 | the response has no content, its status is 200 or 503, and it is 200 exactly when the domain is in the list |
| Authorization.NamedDomainNeedsExactEntry | src/Http/Controllers/SailSslProxyController.php:26 | a non-empty domain is allowed exactly when the list holds that very string |
| Authorization.MissingDomain | src/Http/Controllers/SailSslProxyController.php:26 | an absent or empty domain is allowed exactly when the list holds null or `""` |
| Authorization.DefaultAllowList | config/filhocodes-ssl-proxy.php:33-35 | with the default list, a domain is allowed exactly when it is the application URL's host; with no host, only an absent or empty domain is allowed |
| Disk.EnsureDirectory | src/ArtisanCommands/InstallCommand.php:185 | `is_dir($p) \|\| mkdir($p)` holds exactly when the directory exists or can be made, and only adds it |
| Disk.WriteFile | src/ArtisanCommands/InstallCommand.php:222 | `file_put_contents` succeeds exactly when the path is writable, and only then changes that one file |
| Disk.FileSystem.MakeDirectory | src/ArtisanCommands/InstallCommand.php:185 | `mkdir` succeeds exactly when nothing exists at the path and it can be created, and adds just that directory |
| Disk.FileSystem.PutContents | src/ArtisanCommands/InstallCommand.php:222 | the write changes the disk as `WriteFile` says |
| Disk.FileSystem.GetContents | src/ArtisanCommands/InstallCommand.php:218 | `file_get_contents` returns the file's contents, or fails when there is no file |
| ComposeMerge.TrimSeparators | src/ArtisanCommands/InstallCommand.php:255 | `rtrim($d, '/\\')` is the longest prefix that does not end in a separator, and only separators are cut |
| ComposeMerge.VolumesDirectory | src/ArtisanCommands/InstallCommand.php:255-258 | the volumes directory starts with `.`; `./` is prepended exactly when the trimmed option does not start with `.` |
| ComposeMerge.IpBoundPortsSurvive | src/ArtisanCommands/InstallCommand.php:302-319 | `127.0.0.1:80:80`, `0.0.0.0:443:443` and `${APP_SSL_PORT:-443}:443` are kept |
| ComposeMerge.AbsoluteDirectoryMountedRelative | src/ArtisanCommands/InstallCommand.php:255-258 | an absolute directory not ending in a separator is mounted as `./` followed by that directory |
| ComposeMerge.ProxyKey | src/ArtisanCommands/InstallCommand.php:295 | the proxy's key is the string `<service>.proxy` and never the target service's own key |
| ComposeMerge.UnsetConflictingPorts | src/ArtisanCommands/InstallCommand.php:302-319 | the loop throws exactly when some entry's `published` is an array; otherwise the ports left are the survivors, with their keys and in order |
| ComposeMerge.IncludeSslProxySettings | src/ArtisanCommands/InstallCommand.php:252-323 | the command's merge computes `Merged`, failure cases included |
| ComposeMerge.MergeCopy | src/ArtisanCommands/InstallCommand.php:295-322 | the writes into the copy compute `MergeInto` |
| ComposeMerge.WriteVolumes | src/ArtisanCommands/InstallCommand.php:298-299 | the two volume writes give `DeclaredVolumes`; a scalar `volumes` throws |
| ComposeMerge.FreeTargetPorts | src/ArtisanCommands/InstallCommand.php:301-320 | the `isset` guard and the loop compute `FreePorts`; a non-iterable `ports` throws |
| ComposeMerge.SurvivorsFreeTheHostPorts | src/ArtisanCommands/InstallCommand.php:302-319 | an entry survives exactly when it was there and is not one of the forms the loop removes (`80`, `443`, `80:…`, `443:…`, `${APP_PORT:-80}:…`, or `published` 80/443); freeing twice frees once |
| ComposeMerge.KeptAtEnd | src/ArtisanCommands/InstallCommand.php:302-319 | unsetting by key while iterating a snapshot leaves exactly the survivors |
| ComposeMerge.KeptIsVisited | src/ArtisanCommands/InstallCommand.php:302-319 | after `i` visits, the live list is the survivors among the first `i` entries followed by the unvisited ones |
| ComposeMerge.SurvivorsAppend | src/ArtisanCommands/InstallCommand.php:302-319 | survival is decided entry by entry |
| ComposeMerge.SurvivorsNoneThrow | src/ArtisanCommands/InstallCommand.php:313-316 | the survivors of a list the loop does not throw on are again a list it does not throw on |
| ComposeMerge.FreePortsKeeps | src/ArtisanCommands/InstallCommand.php:301-320 | freeing ports keeps every service's key and place and changes only the target service |
| ComposeMerge.MergeIntoParts | src/ArtisanCommands/InstallCommand.php:295-320 | a successful merge is the document with `services` and `volumes` rewritten to the freed services and the declared volumes |
| ComposeMerge.ProxyServiceListedFirst | src/ArtisanCommands/InstallCommand.php:295-296 | the proxy service is the first service; the earlier services follow in order, with only the target changed and any old proxy entry gone |
| ComposeMerge.TargetPortsFreed | src/ArtisanCommands/InstallCommand.php:301-320 | the target service's ports become its survivors; a target without ports, or one that is not an array, is left alone |
| ComposeMerge.DeclaredVolumesShape | src/ArtisanCommands/InstallCommand.php:298-299 | both volumes map to the local driver, existing volumes keep their places and values, and the new ones are appended in order |
| ComposeMerge.VolumesDeclared | src/ArtisanCommands/InstallCommand.php:298-299 | the merged `volumes` holds both named volumes with the local driver and keeps the volumes declared before |
| ComposeMerge.OtherTopLevelKeysUntouched | src/ArtisanCommands/InstallCommand.php:260-322 | every top-level key except `services` and `volumes` reads as before, keys keep their order, and a new `volumes` goes last |
| ComposeMerge.FreePortsAgain | src/ArtisanCommands/InstallCommand.php:301-320 | freeing the ports twice is freeing them once |
| ComposeMerge.ProxyStaysFirst | src/ArtisanCommands/InstallCommand.php:295-296 | freeing ports keeps the proxy service first |
| ComposeMerge.DeclaredVolumesAgain | src/ArtisanCommands/InstallCommand.php:298-299 | declaring the volumes twice is declaring them once |
| ComposeMerge.MergeIntoIdempotent | src/ArtisanCommands/InstallCommand.php:295-320 | merging a merged document changes nothing |
| ComposeMerge.MergeIdempotent | src/ArtisanCommands/InstallCommand.php:252-323 | a second install over the merged document gives the same document |
| Install.EnsureVolumeDirectories | src/ArtisanCommands/InstallCommand.php:178-206 | the step leaves the disk, and returns the directory or throws, as `Provision` says |
| Install.WriteCaddyFile | src/ArtisanCommands/InstallCommand.php:213-225 | the step writes the rendered template to `<directory>/Caddyfile`, and fails when the template is missing or the write fails |
| Install.RetrieveDockerComposeData | src/ArtisanCommands/InstallCommand.php:233-244 | the step returns the parsed file cast to an array, and throws when the file is missing or does not parse |
| Install.RewriteDockerComposeYml | src/ArtisanCommands/InstallCommand.php:331-339 | the step writes the dump of the data to docker-compose.yml and fails exactly when the write fails |
| Install.RewriteTrustProxiesMiddleware | src/ArtisanCommands/InstallCommand.php:346-361 | the step writes the patched middleware back, and fails when the file or the stub is missing or the write fails |
| Install.Handle | src/ArtisanCommands/InstallCommand.php:71-170 | `handle` returns the code, starts the steps, and leaves the disk as `Run` says |
| Install.WriteCaddyfileBlock | src/ArtisanCommands/InstallCommand.php:85-170 | from the Caddyfile step on, `handle` behaves as the rest of the plan |
| Install.LoadComposeBlock | src/ArtisanCommands/InstallCommand.php:97-170 | from the load on, `handle` behaves as the rest of the plan |
| Install.MergeComposeBlock | src/ArtisanCommands/InstallCommand.php:113-170 | from the merge on, `handle` behaves as the rest of the plan |
| Install.SaveComposeBlock | src/ArtisanCommands/InstallCommand.php:121-170 | from the save on, `handle` behaves as the rest of the plan |
| Install.PatchMiddlewareBlock | src/ArtisanCommands/InstallCommand.php:136-170 | the middleware patch ends the run with SUCCESS or FAILURE |
| Install.MergeBlockOutcome | src/ArtisanCommands/InstallCommand.php:113-119 | a failed merge ends the run with FAILURE right there; a successful one goes on with the merged document |
| InstallProperties.RunStepsFollowsSteps | src/ArtisanCommands/InstallCommand.php:71-170 | a run starts its steps in order and at least one; it returns SUCCESS exactly when every step completes, having started them all, and FAILURE otherwise |
| InstallProperties.RunStepsStopsAtFailure | src/ArtisanCommands/InstallCommand.php:71-170 | a failed run stops at the first step that throws, after every earlier step completed, with the disk that step left |
| InstallProperties.RunFollowsPlan | src/ArtisanCommands/InstallCommand.php:71-170 | `handle` starts a prefix of its plan, and SUCCESS means all of it ran and completed |
| InstallProperties.MiddlewareOnlyWhenAsked | src/ArtisanCommands/InstallCommand.php:137-146 | the middleware is patched only with `--middleware`, and always in a successful run with it |
| InstallProperties.ProvisionSucceedsIff | src/ArtisanCommands/InstallCommand.php:180-205 | provisioning succeeds exactly when the directory resolves to an absolute path and it and both subdirectories exist or can be made; then all three exist |
| InstallProperties.ProvisionTouchesOnlyMarkers | src/ArtisanCommands/InstallCommand.php:185-203 | provisioning only adds directories and writes the two markers; a failed one writes no file |
| InstallProperties.ProvisionIdempotent | src/ArtisanCommands/InstallCommand.php:178-206 | provisioning again after a success, with `realpath` answering as before, changes nothing and returns the same directory |
| InstallProperties.DirectoriesDiffer | src/ArtisanCommands/InstallCommand.php:185-195 | the volume directory and its two subdirectories are three different paths |
| InstallProperties.PathsDiffer | src/ArtisanCommands/InstallCommand.php:199-200 | docker-compose.yml is none of the markers, the Caddyfile or TrustProxies.php |
| InstallProperties.ProvisionKeepsCompose | src/ArtisanCommands/InstallCommand.php:178-206 | provisioning leaves docker-compose.yml as it was |
| InstallProperties.CaddyfileKeepsCompose | src/ArtisanCommands/InstallCommand.php:213-225 | the Caddyfile step leaves docker-compose.yml as it was |
| InstallProperties.ComposeUntouchedBeforeLoad | src/ArtisanCommands/InstallCommand.php:73-98 | the document loaded is the one the file held before the run |
| InstallProperties.ComposeUntouchedByPatch | src/ArtisanCommands/InstallCommand.php:346-361 | the middleware patch leaves docker-compose.yml as it was |
| InstallProperties.SuccessMeansAllComplete | src/ArtisanCommands/InstallCommand.php:71-170 | SUCCESS means every step completed, and the disk is the one the last step left |
| InstallProperties.ComposeSavedAtStageFive | src/ArtisanCommands/InstallCommand.php:97-131 | once load, merge and save complete, the file holds the dump of the merge of what it held before |
| InstallProperties.ComposeFileOnSuccess | src/ArtisanCommands/InstallCommand.php:71-170 | after a successful run, docker-compose.yml holds the dump of the merge of what it held before the run |

## Left out

- The console output and the `Logger::logException` calls are not modelled. They change no state the model tracks, and only the exit code is kept.
- `Yaml::parse` and `Yaml::dump` are not modelled as YAML. They are parameters of the environment (`parse` returns `None` for a parse error), and the model does not state that dump and parse round-trip.
- YAML floats and booleans are not modelled, because `PhpArray.Value` has only arrays, strings, integers and null.
- `realpath`, `getcwd`, `DIRECTORY_SEPARATOR` and `stream_get_wrappers()` are oracles. In `Path`, so is the set of paths for which `is_dir` or `is_file` holds. In `Install` that set and the `is_dir`/`is_file` tests are read from the modelled `Disk`. Symbolic links and `..` segments are not modelled.
- `InstallProperties.ProvisionIdempotent`: `realpath` is a snapshot of the file system taken before the run, so it does not see the directories the first run creates. The lemma therefore assumes that the second run resolves `--directory` as the first did. In PHP, the created directories can change the spelling. For example, `./docker/x/` first resolves to `<cwd>/docker/x/`, and on a second run `realpath` gives `<cwd>/docker/x` without the trailing slash.
- `mkdir`'s mode `0755` and its recursive creation of parent directories are not modelled. Whether a directory can be created is a property of the disk (`Disk.CanCreate`).
- `LOCK_EX` and concurrent writers are not modelled, because the model is single-threaded.
- The bundled Caddyfile template and TrustProxies stub are files on the disk, named by the environment. Their contents are not part of this model.
- The command's signature, its option defaults and the configurable command prefix are not modelled. The options reach `Handle` as given values.
- The controller's `domain` query value is a string or absent (`Option<string>`). An array-valued query string is not modelled.
- `Authorization.DefaultAllowList`: the allow-list entries are strings or null (`Option<string>`). `parse_url` returns `false` for a malformed `app.url`, and against a `false` entry loose `in_array` accepts an absent domain, `""` and `"0"`. That case is not modelled.
- `Authorization.LooselyEqual`: loose `==` is modelled only between strings and null. Numeric strings such as `"1e1" == "10"` compare as numbers in PHP, which the model does not capture.
- The `preg_replace` replacement is modelled only for the stub followed by `$1`. Backreferences or `\` sequences inside the stub itself are copied literally.
- A `preg_replace` failure that returns null (a backtracking limit, invalid UTF-8) is not modelled.
- `ServiceProvider.php` (command and route registration) and `Logger.php` are not part of this model.
- `PhpArray.IntegerKey`: PHP's cast of a string key to an integer is modelled only within 64-bit bounds. Keys outside them stay strings, as in PHP.
- `InstallProperties.ComposeFileOnSuccess` is stated up to the dump oracle: it gives what was written, not what a later parse would read back.
