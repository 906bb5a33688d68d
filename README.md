# Container id resolution, modelled in Dafny

This project models how the OpenTelemetry Java resource library finds the id of the
container a process runs in and publishes it as the resource attribute `container.id`.

- `EcsContainerIdExtractor.extractContainerId` looks at `/proc/1/cpuset`. If the file is
  readable, it splits every line on `/` and returns the first segment, in line order and then
  split order, that is as a whole either an ECS Fargate id (`[0-9a-f]{32}-[0-9]+`) or an
  ECS EC2 id (`[0-9a-f]{64}`). An unreadable file, an `IOException` on opening it, or a file
  without such a segment each give an absent result.
- `ContainerResource` calls the ECS, cgroup v1 and cgroup v2 extractors once each and keeps
  the first present result in that order. It wraps the result as a resource with the single
  attribute `container.id`, or returns the empty resource. It builds this resource once, in
  static initialisation, and `get()` returns that same value every time.

Files:

- `wrappers.dfy`: `Option` (Java's `Optional`) and `Result` (a value or the exception raised).
- `filesystem.dfy`: the `Filesystem` seam as a value. It holds the set of readable paths and
  the lines of each file that can be opened. Opening any other path gives an `IOException`.
- `split.dfy`: Java's `String.split` on a delimiter of one ordinary (non-metacharacter)
  character, such as `/`. It cuts at every delimiter,
  drops trailing empty fields, and returns the string itself when it has no delimiter.
- `ecs_container_id_extractor.dfy`: the two id shapes as character-class predicates, the
  stream pipeline (`flatMap` split, whole-segment `matches`, `findFirst`, `group(0)`) as
  recursive functions, the extractor as a function of the filesystem, and the extractor
  object (`EcsExtractor`), which counts its calls.
- `container_resource.dfy`: the precedence rule, the resource wrapping, and the objects.
  The cgroup extractors are a class that counts its calls. `ContainerResource` holds the three
  extractors. `Statics` holds the class's static state (`FILESYSTEM_INSTANCE`, `INSTANCE`).

The host is a parameter throughout: a `Filesystem` value, plus the results the cgroup v1 and
v2 extractors give on that host.

Three facts about the code shape the model:

- Only the `IOException` that `Files.lines` throws when it opens the file is caught. A read
  error later in the stream is an unchecked exception, and the code lets it through.
- `INSTANCE` is built by the class's static initialiser (`INSTANCE = buildSingleton()`), not
  inside `get()`.
- The `System.out.println` in `getContainerId` prints the chosen `Optional`. It does not say
  which extractor produced it.

## Model

| member | source | states |
|---|---|---|
| `EcsContainerIdExtractor.ExtractContainerId` | instrumentation/resources/library/src/main/java/io/opentelemetry/instrumentation/resources/EcsContainerIdExtractor.java:36-54 | An unreadable cpuset file gives absent. A failed open gives absent. A present result is the first whole-matching segment of the file, in line order and then split order. For a readable file, the result is absent exactly when no segment of any line matches. |
| `EcsContainerIdExtractor.IsFargateId` | instrumentation/resources/library/src/main/java/io/opentelemetry/instrumentation/resources/EcsContainerIdExtractor.java:21-23 | Definition of the Fargate alternative matched as a whole: exactly 32 characters from `[0-9a-f]`, then `-`, then one or more characters from `[0-9]`, and nothing else. |
| `EcsContainerIdExtractor.IsEc2Id` | instrumentation/resources/library/src/main/java/io/opentelemetry/instrumentation/resources/EcsContainerIdExtractor.java:22-23 | Definition of the EC2 alternative matched as a whole: exactly 64 characters from `[0-9a-f]`. |
| `EcsContainerIdExtractor.MatchesContainerIdRe` | instrumentation/resources/library/src/main/java/io/opentelemetry/instrumentation/resources/EcsContainerIdExtractor.java:23 | Definition of `CONTAINER_ID_RE.matcher(s).matches()`: the whole string has the Fargate shape or the EC2 shape. |
| `EcsContainerIdExtractor.Segments` | instrumentation/resources/library/src/main/java/io/opentelemetry/instrumentation/resources/EcsContainerIdExtractor.java:41-43 | The `flatMap` of `line.split("/")` over the lines, in line order. No segment it yields contains `/`. |
| `EcsContainerIdExtractor.FindFirst` | instrumentation/resources/library/src/main/java/io/opentelemetry/instrumentation/resources/EcsContainerIdExtractor.java:44-47 | A present result is some segment, returned unchanged (`group(0)` of a full match). It matches, and no earlier segment matches. The result is absent exactly when no segment matches. |
| `EcsContainerIdExtractor.FindFirstAppend` | instrumentation/resources/library/src/main/java/io/opentelemetry/instrumentation/resources/EcsContainerIdExtractor.java:43-46 | `findFirst` after `flatMap`: the first match in `a + b` is the first match in `a` when there is one, and otherwise the first match in `b`. |
| `EcsContainerIdExtractor.FindFirstIsFirstMatch` | instrumentation/resources/library/src/main/java/io/opentelemetry/instrumentation/resources/EcsContainerIdExtractor.java:44-47 | If segment k is the first that matches, `findFirst` yields exactly segment k. |
| `EcsContainerIdExtractor.FindFirstInLines` | instrumentation/resources/library/src/main/java/io/opentelemetry/instrumentation/resources/EcsContainerIdExtractor.java:41-47 | Over a file's lines, a present result is segment j of line i. That segment matches, and nothing earlier matches: no segment of an earlier line, and no earlier segment of line i. The result is absent exactly when no segment of any line matches. |
| `EcsContainerIdExtractor.FirstMatchInLinesIsFound` | instrumentation/resources/library/src/main/java/io/opentelemetry/instrumentation/resources/EcsContainerIdExtractor.java:41-47 | The converse: if (i, j) is the first matching position in line-then-split order, the pipeline yields that segment. |
| `EcsContainerIdExtractor.ExtractFindsFirstMatch` | instrumentation/resources/library/src/main/java/io/opentelemetry/instrumentation/resources/EcsContainerIdExtractor.java:37-47 | For a readable cpuset file whose first matching segment is at (i, j), the extractor returns that segment. |
| `EcsContainerIdExtractor.ExtractedIdIsWholeSegment` | instrumentation/resources/library/src/main/java/io/opentelemetry/instrumentation/resources/EcsContainerIdExtractor.java:21-47 | A present id matches one of the two shapes, and exactly one of them. It contains no `/`. It is one of the `/`-separated segments of some line of the file. |
| `EcsContainerIdExtractor.UnreadableReadsNothing` | instrumentation/resources/library/src/main/java/io/opentelemetry/instrumentation/resources/EcsContainerIdExtractor.java:37-39 | An unreadable cpuset file gives absent whatever the files contain, so no line is consulted. |
| `EcsContainerIdExtractor.OnlyCpusetMatters` | instrumentation/resources/library/src/main/java/io/opentelemetry/instrumentation/resources/EcsContainerIdExtractor.java:20 | Two hosts that agree on the readability and lines of `/proc/1/cpuset` give the same result. |
| `EcsContainerIdExtractor.FargateIdIsConcatenation` | instrumentation/resources/library/src/main/java/io/opentelemetry/instrumentation/resources/EcsContainerIdExtractor.java:21-23 | A string has the Fargate shape exactly when it is 32 lower-case hex digits, then `-`, then one or more decimal digits, with nothing before or after. |
| `EcsContainerIdExtractor.Ec2IdIsHexRun` | instrumentation/resources/library/src/main/java/io/opentelemetry/instrumentation/resources/EcsContainerIdExtractor.java:22-23 | A string has the EC2 shape exactly when it is 64 lower-case hex digits. |
| `EcsContainerIdExtractor.ShapesAreExclusive` | instrumentation/resources/library/src/main/java/io/opentelemetry/instrumentation/resources/EcsContainerIdExtractor.java:23 | A match has exactly one of the two alternatives. It is non-empty and holds no `/`. |
| `EcsContainerIdExtractor.SplitQuirkIsInvisible` | instrumentation/resources/library/src/main/java/io/opentelemetry/instrumentation/resources/EcsContainerIdExtractor.java:43 | Java's dropping of trailing empty fields does not change the first match of a line, because an empty segment never matches. |
| `EcsContainerIdExtractor.FargateLineExample` | instrumentation/resources/library/src/main/java/io/opentelemetry/instrumentation/resources/EcsContainerIdExtractor.java:36-49 | A cpuset file with the one line `/docker/a1b2c3d4e5f6a1b2c3d4e5f6a1b2c3d4-1234567890` yields `a1b2c3d4e5f6a1b2c3d4e5f6a1b2c3d4-1234567890`. |
| `EcsContainerIdExtractor.TwoLevelPathSegments` | instrumentation/resources/library/src/main/java/io/opentelemetry/instrumentation/resources/EcsContainerIdExtractor.java:43 | A line `/dir/name`, with `dir` and `name` free of `/` and `name` non-empty, splits into `""`, `dir` and `name`. |
| `JavaSplit.Fields` | instrumentation/resources/library/src/main/java/io/opentelemetry/instrumentation/resources/EcsContainerIdExtractor.java:43 | Every field between delimiters, trailing empty ones included. There is always at least one field. |
| `JavaSplit.Split` | instrumentation/resources/library/src/main/java/io/opentelemetry/instrumentation/resources/EcsContainerIdExtractor.java:43 | Definition of `line.split("/")`: the string itself when it has no delimiter, otherwise all fields with the trailing empty ones dropped. |
| `JavaSplit.JoinFields` | instrumentation/resources/library/src/main/java/io/opentelemetry/instrumentation/resources/EcsContainerIdExtractor.java:43 | Joining the fields of a line with `/` gives the line back, so splitting loses no character. |
| `JavaSplit.FieldsHaveNoSeparator` | instrumentation/resources/library/src/main/java/io/opentelemetry/instrumentation/resources/EcsContainerIdExtractor.java:43 | No field contains the delimiter. |
| `JavaSplit.FieldsWithoutSeparator` | instrumentation/resources/library/src/main/java/io/opentelemetry/instrumentation/resources/EcsContainerIdExtractor.java:43 | A string without the delimiter is its own only field. |
| `JavaSplit.FieldsAround` | instrumentation/resources/library/src/main/java/io/opentelemetry/instrumentation/resources/EcsContainerIdExtractor.java:43 | The fields of `a + "/" + b` are the fields of `a` followed by the fields of `b`. |
| `JavaSplit.DropTrailingEmpty` | instrumentation/resources/library/src/main/java/io/opentelemetry/instrumentation/resources/EcsContainerIdExtractor.java:43 | The result is a prefix of the fields. Everything dropped is empty. The result does not end with an empty field. |
| `JavaSplit.SplitIsFieldsPrefix` | instrumentation/resources/library/src/main/java/io/opentelemetry/instrumentation/resources/EcsContainerIdExtractor.java:43 | `line.split("/")` is a prefix of all fields, the rest of which are empty, and none of its segments contains `/`. |
| `ContainerResource.SelectContainerId` | instrumentation/resources/library/src/main/java/io/opentelemetry/instrumentation/resources/ContainerResource.java:59-70 | The if/else of `getContainerId`. The result is present exactly when at least one of the three results is present. A present result is one of the three. The precedence lemmas below pin down which one. |
| `ContainerResource.ResolvedResource` | instrumentation/resources/library/src/main/java/io/opentelemetry/instrumentation/resources/ContainerResource.java:48-70 | The resource a host yields. The `container.id` it carries is exactly the id the precedence selects from the three extractors' results. |
| `ProcFilesystem.Filesystem.IsReadable` | instrumentation/resources/library/src/main/java/io/opentelemetry/instrumentation/resources/ContainerResource.java:81-83 | Definition of `Filesystem.isReadable`: true exactly for the paths the host snapshot lists as readable. It never throws. |
| `ProcFilesystem.Filesystem.Lines` | instrumentation/resources/library/src/main/java/io/opentelemetry/instrumentation/resources/ContainerResource.java:85-88 | Definition of `Filesystem.lines`: the lines of the file when the host can open it, otherwise the `IOException` for that path. |
| `ContainerResource.FirstPresent` | instrumentation/resources/library/src/main/java/io/opentelemetry/instrumentation/resources/ContainerResource.java:59-70 | The reference for the precedence. A present result is some entry, and every earlier entry is absent. The result is absent exactly when every entry is absent. |
| `ContainerResource.SelectIsFirstPresent` | instrumentation/resources/library/src/main/java/io/opentelemetry/instrumentation/resources/ContainerResource.java:59-70 | The precedence of `getContainerId` is "first present of ECS, v1, v2". |
| `ContainerResource.EcsTakesPrecedence` | instrumentation/resources/library/src/main/java/io/opentelemetry/instrumentation/resources/ContainerResource.java:59-61 | A present ECS result is the resolved id, whatever v1 and v2 return. |
| `ContainerResource.CgroupV1WithoutEcs` | instrumentation/resources/library/src/main/java/io/opentelemetry/instrumentation/resources/ContainerResource.java:63-65 | With ECS absent and v1 present, the v1 result is the resolved id. |
| `ContainerResource.CgroupV2AsLastResort` | instrumentation/resources/library/src/main/java/io/opentelemetry/instrumentation/resources/ContainerResource.java:67-69 | With ECS and v1 absent, the v2 result is the resolved id, absent or not. |
| `ContainerResource.ResourceFor` | instrumentation/resources/library/src/main/java/io/opentelemetry/instrumentation/resources/ContainerResource.java:48-51 | The only possible attribute is `container.id`. It is present exactly when the id is, and it then carries the id. |
| `ContainerResource.ResourceForRoundTrip` | instrumentation/resources/library/src/main/java/io/opentelemetry/instrumentation/resources/ContainerResource.java:48-51 | The id can be read back from the resource. An absent id gives exactly the empty resource. A present id gives exactly `{container.id = id}`. |
| `EcsContainerIdExtractor.EcsExtractor.constructor` | instrumentation/resources/library/src/main/java/io/opentelemetry/instrumentation/resources/EcsContainerIdExtractor.java:25-34 | Stores the filesystem the extractor reads; its call count starts at 0. `ContainerResource.ContainerResource.Default` passes the host filesystem, as the no-argument constructor binds `FILESYSTEM_INSTANCE`. |
| `EcsContainerIdExtractor.EcsExtractor.ExtractContainerId` | instrumentation/resources/library/src/main/java/io/opentelemetry/instrumentation/resources/EcsContainerIdExtractor.java:25-36 | The extractor object bound to its filesystem returns the extractor function's result for that filesystem, and counts one call. |
| `ContainerResource.CgroupExtractor.constructor` | instrumentation/resources/library/src/main/java/io/opentelemetry/instrumentation/resources/ContainerResource.java:36 | Stands for `new CgroupV1ContainerIdExtractor()` or `new CgroupV2ContainerIdExtractor()`: stores the result the extractor yields on this host; its call count starts at 0. |
| `ContainerResource.CgroupExtractor.ExtractContainerId` | instrumentation/resources/library/src/main/java/io/opentelemetry/instrumentation/resources/ContainerResource.java:56-57 | A cgroup extractor returns what it yields on this host, and counts one call. |
| `ContainerResource.ContainerResource.constructor` | instrumentation/resources/library/src/main/java/io/opentelemetry/instrumentation/resources/ContainerResource.java:40-45 | Stores the three given extractors. |
| `ContainerResource.ContainerResource.Default` | instrumentation/resources/library/src/main/java/io/opentelemetry/instrumentation/resources/ContainerResource.java:35-37 | Creates three fresh extractors over the host, none of them called yet. |
| `ContainerResource.ContainerResource.GetContainerId` | instrumentation/resources/library/src/main/java/io/opentelemetry/instrumentation/resources/ContainerResource.java:54-71 | Calls each of the three extractors exactly once, whichever wins. Returns the precedence's choice among their results. |
| `ContainerResource.ContainerResource.BuildResource` | instrumentation/resources/library/src/main/java/io/opentelemetry/instrumentation/resources/ContainerResource.java:48-52 | Returns the resolved id wrapped as the `container.id` resource, or the empty resource. Calls each extractor exactly once. |
| `ContainerResource.BuildSingleton` | instrumentation/resources/library/src/main/java/io/opentelemetry/instrumentation/resources/ContainerResource.java:26-29 | Returns the host's resolved resource. Afterwards each of the fresh extractors it used has been called exactly once. |
| `ContainerResource.Statics.constructor` | instrumentation/resources/library/src/main/java/io/opentelemetry/instrumentation/resources/ContainerResource.java:24-25 | Class initialisation stores `FILESYSTEM_INSTANCE` and sets `INSTANCE` to the host's resolved resource, with one call of each extractor. |
| `ContainerResource.Statics.Get` | instrumentation/resources/library/src/main/java/io/opentelemetry/instrumentation/resources/ContainerResource.java:74-76 | Returns `INSTANCE`, which is the host's resolved resource. It changes nothing, so no extractor runs again. |
| `ContainerResource.GetTwice` | instrumentation/resources/library/src/main/java/io/opentelemetry/instrumentation/resources/ContainerResource.java:74-76 | Two calls of `get()` return equal resources. Each extractor's call count is still 1. |
| `ContainerResource.FargateHostScenario` | instrumentation/resources/library/src/main/java/io/opentelemetry/instrumentation/resources/ContainerResource.java:48-61 | A host whose cpuset file holds the Fargate line resolves to `{container.id = <that id>}`, whatever v1 and v2 return. |
| `ContainerResource.BareHostScenario` | instrumentation/resources/library/src/main/java/io/opentelemetry/instrumentation/resources/ContainerResource.java:48-71 | A host with nothing readable, and no cgroup result, resolves to the empty resource. |
| `ContainerResource.EmptyCpusetFallsThroughToV1` | instrumentation/resources/library/src/main/java/io/opentelemetry/instrumentation/resources/ContainerResource.java:59-65 | A readable but empty cpuset file falls through to the v1 result. |

## Left out

- The internals of `CgroupV1ContainerIdExtractor` and `CgroupV2ContainerIdExtractor` are not part of this model. Each extractor stands for the result it yields on the host.
- Real file I/O (`Files.isReadable`, `Files.lines`) is replaced by a `Filesystem` value. Splitting file text into lines is outside the model; each file is given as its list of lines.
- Read errors after `Files.lines` has opened the file (`UncheckedIOException` mid-stream) are not modelled. The code does not catch them. Closing the stream is not modelled either.
- The `java.util.regex` engine is not modelled. Only the two shapes of `CONTAINER_ID_RE` are, as character-class predicates. The `$` anchors add nothing under `matches()`.
- The OpenTelemetry `Resource` and `Attributes` types are modelled as a map of string attributes, of which only `container.id` is ever set.
- Logging (`logger.log`) and `System.out.println` are not modelled. They are diagnostics only.
- Thread safety of class initialisation is not modelled. Static initialisation is modelled as the one constructor call of `Statics`.
