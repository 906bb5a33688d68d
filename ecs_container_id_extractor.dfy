/**
 * EcsContainerIdExtractor: finds the container id that Amazon ECS exposes through the
 * cgroup path of process 1, written to /proc/1/cpuset on both Fargate and EC2.
 */
module EcsContainerIdExtractor {
  import opened Wrappers
  import opened ProcFilesystem
  import JavaSplit

  /** ECS_CGROUP_PATH */
  const ECS_CGROUP_PATH: Path := "/proc/1/cpuset"

  /** The path separator each line is split on. */
  const SEPARATOR: char := '/'

  /** The character class [0-9a-f]: lower-case hexadecimal only. */
  predicate IsHexDigit(c: char) {
    '0' <= c <= '9' || 'a' <= c <= 'f'
  }

  /** The character class [0-9]. */
  predicate IsDecimalDigit(c: char) {
    '0' <= c <= '9'
  }

  /** The ECS Fargate shape [0-9a-f]{32}-[0-9]+, matched against the whole string. */
  predicate IsFargateId(s: string) {
    && |s| >= 34
    && (forall k :: 0 <= k < 32 ==> IsHexDigit(s[k]))
    && s[32] == '-'
    && (forall k :: 33 <= k < |s| ==> IsDecimalDigit(s[k]))
  }

  /** The ECS EC2 shape [0-9a-f]{64}, matched against the whole string. */
  predicate IsEc2Id(s: string) {
    |s| == 64 && forall k :: 0 <= k < 64 ==> IsHexDigit(s[k])
  }

  /** CONTAINER_ID_RE.matcher(s).matches(): the whole string has one of the two shapes. */
  predicate MatchesContainerIdRe(s: string) {
    IsFargateId(s) || IsEc2Id(s)
  }

  predicate AllHex(s: string) {
    forall c :: c in s ==> IsHexDigit(c)
  }

  predicate AllDecimal(s: string) {
    forall c :: c in s ==> IsDecimalDigit(c)
  }

  /**
   * The Fargate shape read as the pattern reads: 32 hex digits, a dash, then a non-empty
   * run of decimal digits, and nothing before or after.
   */
  lemma FargateIdIsConcatenation(s: string)
    ensures IsFargateId(s) <==>
              exists hex, digits ::
                && s == hex + "-" + digits
                && |hex| == 32 && AllHex(hex)
                && |digits| >= 1 && AllDecimal(digits)
  {
    if IsFargateId(s) {
      var hex, digits := s[..32], s[33..];
      assert s == hex + "-" + digits;
      assert AllHex(hex) by {
        forall c | c in hex ensures IsHexDigit(c) {
          var k :| 0 <= k < 32 && hex[k] == c;
          assert s[k] == c;
        }
      }
      assert AllDecimal(digits) by {
        forall c | c in digits ensures IsDecimalDigit(c) {
          var k :| 0 <= k < |digits| && digits[k] == c;
          assert s[33 + k] == c;
        }
      }
    }
    if exists hex, digits ::
         && s == hex + "-" + digits
         && |hex| == 32 && AllHex(hex)
         && |digits| >= 1 && AllDecimal(digits)
    {
      var hex, digits :|
        && s == hex + "-" + digits
        && |hex| == 32 && AllHex(hex)
        && |digits| >= 1 && AllDecimal(digits);
      FargateFromParts(hex, digits);
    }
  }

  /** 32 hex digits, a dash and a run of decimal digits make a Fargate id. */
  lemma FargateFromParts(hex: string, digits: string)
    requires |hex| == 32 && AllHex(hex) && |digits| >= 1 && AllDecimal(digits)
    ensures IsFargateId(hex + "-" + digits)
  {
    var s := hex + "-" + digits;
    forall k | 0 <= k < 32 ensures IsHexDigit(s[k]) {
      assert s[k] == hex[k];
    }
    forall k | 33 <= k < |s| ensures IsDecimalDigit(s[k]) {
      assert s[k] == digits[k - 33];
    }
  }

  lemma AllHexConcat(a: string, b: string)
    requires AllHex(a) && AllHex(b)
    ensures AllHex(a + b)
  {
  }

  /** The EC2 shape is exactly a run of 64 hex digits. */
  lemma Ec2IdIsHexRun(s: string)
    ensures IsEc2Id(s) <==> |s| == 64 && AllHex(s)
  {
    if IsEc2Id(s) {
      forall c | c in s ensures IsHexDigit(c) {
        var k :| 0 <= k < |s| && s[k] == c;
      }
    }
  }

  /**
   * The two alternatives never overlap, so a match has exactly one of the two shapes; and a
   * match holds neither the separator nor anything but hex digits and the dash.
   */
  lemma ShapesAreExclusive(s: string)
    requires MatchesContainerIdRe(s)
    ensures IsFargateId(s) != IsEc2Id(s)
    ensures SEPARATOR !in s && s != ""
  {
    if IsFargateId(s) {
      assert !IsHexDigit(s[32]);
    }
    if SEPARATOR in s {
      var k :| 0 <= k < |s| && s[k] == SEPARATOR;
    }
  }

  /** The '/'-separated segments of every line, line after line, each line split as Java splits it. */
  function Segments(lines: seq<string>): (r: seq<string>)
    ensures forall k :: 0 <= k < |r| ==> SEPARATOR !in r[k]
  {
    if lines == [] then []
    else
      JavaSplit.SplitIsFieldsPrefix(lines[0], SEPARATOR);
      JavaSplit.Split(lines[0], SEPARATOR) + Segments(lines[1..])
  }

  /** Segment k matches and no earlier segment does. */
  predicate IsFirstMatch(segments: seq<string>, k: int) {
    && 0 <= k < |segments|
    && MatchesContainerIdRe(segments[k])
    && forall j :: 0 <= j < k ==> !MatchesContainerIdRe(segments[j])
  }

  /** No segment matches. */
  predicate NoMatch(segments: seq<string>) {
    forall k :: 0 <= k < |segments| ==> !MatchesContainerIdRe(segments[k])
  }

  /** The earliest segment that has one of the two shapes as a whole, returned unchanged. */
  function FindFirst(segments: seq<string>): (r: Option<string>)
    ensures r.Some? ==> exists k :: IsFirstMatch(segments, k) && r.value == segments[k]
    ensures r.None? <==> NoMatch(segments)
  {
    if segments == [] then None
    else if MatchesContainerIdRe(segments[0]) then Some(segments[0])
    else
      var r := FindFirst(segments[1..]);
      assert r.Some? ==> exists k :: IsFirstMatch(segments[1..], k) && r.value == segments[1..][k];
      assert r.Some? ==> exists k :: IsFirstMatch(segments, k) && r.value == segments[k] by {
        if r.Some? {
          var k :| IsFirstMatch(segments[1..], k) && r.value == segments[1..][k];
          assert IsFirstMatch(segments, k + 1);
        }
      }
      r
  }

  /** The first match of a concatenation is the first match of its first part, if any. */
  lemma {:induction false} FindFirstAppend(a: seq<string>, b: seq<string>)
    ensures FindFirst(a + b) == if FindFirst(a).Some? then FindFirst(a) else FindFirst(b)
  {
    if a != [] {
      assert (a + b)[0] == a[0] && (a + b)[1..] == a[1..] + b;
      FindFirstAppend(a[1..], b);
    } else {
      assert a + b == b;
    }
  }

  /** The first match is index k exactly when segment k is the first one that matches. */
  lemma FindFirstIsFirstMatch(segments: seq<string>, k: int)
    requires IsFirstMatch(segments, k)
    ensures FindFirst(segments) == Some(segments[k])
  {
    assert !NoMatch(segments);
    var r := FindFirst(segments);
    var k' :| IsFirstMatch(segments, k') && r.value == segments[k'];
    assert !(k' < k) && !(k < k');
  }

  /**
   * Java dropping trailing empty strings from a split changes nothing here: an empty
   * segment never matches, so the first match over every field is the same.
   */
  lemma SplitQuirkIsInvisible(line: string)
    ensures FindFirst(JavaSplit.Split(line, SEPARATOR)) == FindFirst(JavaSplit.Fields(line, SEPARATOR))
  {
    var split, fields := JavaSplit.Split(line, SEPARATOR), JavaSplit.Fields(line, SEPARATOR);
    JavaSplit.SplitIsFieldsPrefix(line, SEPARATOR);
    var tail := fields[|split|..];
    assert fields == split + tail;
    assert NoMatch(tail) by {
      forall k | 0 <= k < |tail| ensures !MatchesContainerIdRe(tail[k]) {
        assert tail[k] == fields[|split| + k] == "";
      }
    }
    FindFirstAppend(split, tail);
  }

  /** Line i, segment j is the first match in line order, then in split order. */
  predicate IsFirstMatchInLines(lines: seq<string>, i: int, j: int) {
    && 0 <= i < |lines|
    && IsFirstMatch(JavaSplit.Split(lines[i], SEPARATOR), j)
    && forall i' :: 0 <= i' < i ==> NoMatch(JavaSplit.Split(lines[i'], SEPARATOR))
  }

  /**
   * Over a file's lines, the stream pipeline yields the first matching segment in line
   * order and then split order, and yields nothing when no segment of any line matches.
   */
  lemma {:induction false} FindFirstInLines(lines: seq<string>)
    ensures var r := FindFirst(Segments(lines));
            r.Some? ==> exists i, j :: IsFirstMatchInLines(lines, i, j) && r.value == JavaSplit.Split(lines[i], SEPARATOR)[j]
    ensures FindFirst(Segments(lines)).None? <==>
              forall i :: 0 <= i < |lines| ==> NoMatch(JavaSplit.Split(lines[i], SEPARATOR))
  {
    if lines != [] {
      var head := JavaSplit.Split(lines[0], SEPARATOR);
      var tail := lines[1..];
      FindFirstInLines(tail);
      FindFirstAppend(head, Segments(tail));
      var r := FindFirst(Segments(lines));
      if FindFirst(head).Some? {
        var j :| IsFirstMatch(head, j) && FindFirst(head).value == head[j];
        assert IsFirstMatchInLines(lines, 0, j);
        assert !NoMatch(head);
      } else {
        assert NoMatch(head);
        if r.Some? {
          var i, j :| IsFirstMatchInLines(tail, i, j) && r.value == JavaSplit.Split(tail[i], SEPARATOR)[j];
          assert IsFirstMatchInLines(lines, i + 1, j) by {
            forall i' | 0 <= i' < i + 1 ensures NoMatch(JavaSplit.Split(lines[i'], SEPARATOR)) {
              if i' > 0 {
                assert lines[i'] == tail[i' - 1];
              }
            }
          }
        }
        if forall i :: 0 <= i < |lines| ==> NoMatch(JavaSplit.Split(lines[i], SEPARATOR)) {
          forall i | 0 <= i < |tail| ensures NoMatch(JavaSplit.Split(tail[i], SEPARATOR)) {
            assert tail[i] == lines[i + 1];
          }
        }
        if r.None? {
          forall i | 0 <= i < |lines| ensures NoMatch(JavaSplit.Split(lines[i], SEPARATOR)) {
            if i > 0 {
              assert lines[i] == tail[i - 1];
            }
          }
        }
      }
    }
  }

  /** The converse: whatever the first matching segment is, that is what the pipeline yields. */
  lemma {:induction false} FirstMatchInLinesIsFound(lines: seq<string>, i: int, j: int)
    requires IsFirstMatchInLines(lines, i, j)
    ensures FindFirst(Segments(lines)) == Some(JavaSplit.Split(lines[i], SEPARATOR)[j])
  {
    var head := JavaSplit.Split(lines[0], SEPARATOR);
    FindFirstAppend(head, Segments(lines[1..]));
    if i == 0 {
      FindFirstIsFirstMatch(head, j);
    } else {
      assert NoMatch(head);
      assert IsFirstMatchInLines(lines[1..], i - 1, j) by {
        forall i' | 0 <= i' < i - 1 ensures NoMatch(JavaSplit.Split(lines[1..][i'], SEPARATOR)) {
          assert lines[1..][i'] == lines[i' + 1];
        }
      }
      FirstMatchInLinesIsFound(lines[1..], i - 1, j);
    }
  }

  /**
   * extractContainerId: absent when the cpuset file is unreadable or cannot be opened (the
   * IOException is logged and swallowed); otherwise the first segment of the file, in line
   * order and then split order, that is a whole Fargate or EC2 container id.
   */
  function ExtractContainerId(fs: Filesystem): (r: Option<string>)
    ensures !fs.IsReadable(ECS_CGROUP_PATH) ==> r == None
    ensures fs.Lines(ECS_CGROUP_PATH).Failure? ==> r == None
    ensures r.Some? ==>
              && fs.IsReadable(ECS_CGROUP_PATH)
              && fs.Lines(ECS_CGROUP_PATH).Success?
              && var lines := fs.Lines(ECS_CGROUP_PATH).value;
                 exists i, j :: IsFirstMatchInLines(lines, i, j) && r.value == JavaSplit.Split(lines[i], SEPARATOR)[j]
    ensures fs.IsReadable(ECS_CGROUP_PATH) && fs.Lines(ECS_CGROUP_PATH).Success? ==>
              var lines := fs.Lines(ECS_CGROUP_PATH).value;
              (r.None? <==> forall i :: 0 <= i < |lines| ==> NoMatch(JavaSplit.Split(lines[i], SEPARATOR)))
  {
    if !fs.IsReadable(ECS_CGROUP_PATH) then None
    else
      match fs.Lines(ECS_CGROUP_PATH)
      case Failure(_) => None
      case Success(lines) =>
        FindFirstInLines(lines);
        FindFirst(Segments(lines))
  }

  /**
   * The extractor object: bound to the filesystem it reads, and counting how often it has
   * been asked for the container id.
   */
  class EcsExtractor {
    const filesystem: Filesystem
    var calls: nat

    constructor (filesystem: Filesystem)
      ensures this.filesystem == filesystem && calls == 0
    {
      this.filesystem := filesystem;
      calls := 0;
    }

    /** extractContainerId on this object; `_default` names the module-level function of the same name. */
    method ExtractContainerId() returns (r: Option<string>)
      modifies this
      ensures r == _default.ExtractContainerId(filesystem)
      ensures calls == old(calls) + 1
    {
      r := _default.ExtractContainerId(filesystem);
      calls := calls + 1;
    }
  }

  /**
   * A present id has one of the two whole shapes, is one '/'-free segment of some line of
   * the file, and is that segment unchanged.
   */
  lemma ExtractedIdIsWholeSegment(fs: Filesystem)
    requires ExtractContainerId(fs).Some?
    ensures var id := ExtractContainerId(fs).value;
            && MatchesContainerIdRe(id)
            && (IsFargateId(id) != IsEc2Id(id))
            && SEPARATOR !in id
            && var lines := fs.Lines(ECS_CGROUP_PATH).value;
               exists i :: 0 <= i < |lines| && id in JavaSplit.Split(lines[i], SEPARATOR)
  {
    var id := ExtractContainerId(fs).value;
    var lines := fs.Lines(ECS_CGROUP_PATH).value;
    var i, j :| IsFirstMatchInLines(lines, i, j) && id == JavaSplit.Split(lines[i], SEPARATOR)[j];
    ShapesAreExclusive(id);
  }

  /** When the file is readable and the first matching segment is at (i, j), that segment is the result. */
  lemma ExtractFindsFirstMatch(fs: Filesystem, i: int, j: int)
    requires fs.IsReadable(ECS_CGROUP_PATH) && fs.Lines(ECS_CGROUP_PATH).Success?
    requires IsFirstMatchInLines(fs.Lines(ECS_CGROUP_PATH).value, i, j)
    ensures ExtractContainerId(fs) == Some(JavaSplit.Split(fs.Lines(ECS_CGROUP_PATH).value[i], SEPARATOR)[j])
  {
    FirstMatchInLinesIsFound(fs.Lines(ECS_CGROUP_PATH).value, i, j);
  }

  /**
   * When the cpuset file is not readable no line is read: the result is absent whatever
   * the file holds.
   */
  lemma UnreadableReadsNothing(fs: Filesystem, files: map<Path, seq<string>>)
    requires !fs.IsReadable(ECS_CGROUP_PATH)
    ensures ExtractContainerId(fs) == None
    ensures ExtractContainerId(fs.(files := files)) == None
  {
  }

  /** Only the cpuset file counts: two hosts that agree on it give the same result. */
  lemma OnlyCpusetMatters(fs: Filesystem, fs': Filesystem)
    requires fs.IsReadable(ECS_CGROUP_PATH) == fs'.IsReadable(ECS_CGROUP_PATH)
    requires fs.Lines(ECS_CGROUP_PATH) == fs'.Lines(ECS_CGROUP_PATH)
    ensures ExtractContainerId(fs) == ExtractContainerId(fs')
  {
  }

  /** A Fargate cpuset line is /docker/<32 hex digits>-<task number>. */
  const FARGATE_HEX: string := "a1b2c3d4" + "e5f6a1b2" + "c3d4e5f6" + "a1b2c3d4"
  const FARGATE_ID: string := FARGATE_HEX + "-" + "1234567890"

  lemma FargateHexIsHex()
    ensures |FARGATE_HEX| == 32 && AllHex(FARGATE_HEX)
  {
    assert AllHex("a1b2c3d4") && AllHex("e5f6a1b2") && AllHex("c3d4e5f6");
    AllHexConcat("a1b2c3d4", "e5f6a1b2");
    AllHexConcat("a1b2c3d4" + "e5f6a1b2", "c3d4e5f6");
    AllHexConcat("a1b2c3d4" + "e5f6a1b2" + "c3d4e5f6", "a1b2c3d4");
  }

  lemma FargateIdHasFargateShape()
    ensures IsFargateId(FARGATE_ID)
  {
    FargateHexIsHex();
    assert AllDecimal("1234567890");
    FargateFromParts(FARGATE_HEX, "1234567890");
  }

  /** A line /dir/name with '/'-free dir and name splits into "", dir and name. */
  lemma TwoLevelPathSegments(dir: string, name: string)
    requires SEPARATOR !in dir && SEPARATOR !in name && name != ""
    ensures JavaSplit.Split([SEPARATOR] + dir + [SEPARATOR] + name, SEPARATOR) == ["", dir, name]
  {
    var rest := dir + [SEPARATOR] + name;
    var line := "" + [SEPARATOR] + rest;
    assert line == [SEPARATOR] + dir + [SEPARATOR] + name;
    JavaSplit.FieldsAround(dir, SEPARATOR, name);
    JavaSplit.FieldsWithoutSeparator(dir, SEPARATOR);
    JavaSplit.FieldsWithoutSeparator(name, SEPARATOR);
    JavaSplit.FieldsAround("", SEPARATOR, rest);
    assert line[0] == SEPARATOR;
  }

  lemma FargateLineSegments()
    ensures JavaSplit.Split("/docker/" + FARGATE_ID, SEPARATOR) == ["", "docker", FARGATE_ID]
  {
    FargateIdHasFargateShape();
    ShapesAreExclusive(FARGATE_ID);
    assert "/docker/" + FARGATE_ID == [SEPARATOR] + "docker" + [SEPARATOR] + FARGATE_ID;
    TwoLevelPathSegments("docker", FARGATE_ID);
  }

  /** The id at the end of a Fargate cpuset line /docker/<id> is what the extractor returns. */
  lemma FargateLineExample(fs: Filesystem)
    requires fs.IsReadable(ECS_CGROUP_PATH)
    requires fs.Lines(ECS_CGROUP_PATH) == Success(["/docker/" + FARGATE_ID])
    ensures ExtractContainerId(fs) == Some(FARGATE_ID)
  {
    var lines := ["/docker/" + FARGATE_ID];
    FargateLineSegments();
    FargateIdHasFargateShape();
    assert !MatchesContainerIdRe("");
    assert !MatchesContainerIdRe("docker");
    assert IsFirstMatch(JavaSplit.Split(lines[0], SEPARATOR), 2);
    assert IsFirstMatchInLines(lines, 0, 2);
    ExtractFindsFirstMatch(fs, 0, 2);
  }
}
