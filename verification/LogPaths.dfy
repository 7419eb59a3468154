/** The paths one mutation of the logs registers before it may touch any of them: at most 128 files and
    directories, all of which join one batch of permission checks. */
module LogPaths {
  import opened AnchorLog
  import opened Sets

  datatype Stream = Stdout | Stderr

  /** The names inside the directory of a task. */
  datatype Name =
    | Current(stream: Stream)
    | Generation(stream: Stream)
    | Archive(stream: Stream, number: nat)
    | Temporary(serial: nat)

  /** A file, by the directories that lead to it from the log root. */
  datatype Path = Path(directory: seq<string>, name: Name)

  /** What a rotating log names as its targets. */
  function Targets(directory: seq<string>, stream: Stream, retained: nat): seq<Path> {
    [Path(directory, Current(stream)), Path(directory, Generation(stream))]
    + seq(retained, i requires 0 <= i < retained => Path(directory, Archive(stream, i + 1)))
  }

  function Elements(targets: seq<Path>): set<Path> {
    set t | t in targets
  }

  /** The log root and every directory on the way down, the last one included. */
  function Prefixes(directory: seq<string>): set<seq<string>> {
    if directory == [] then {[]} else Prefixes(directory[..|directory| - 1]) + {directory}
  }

  function DirectoriesOf(files: set<Path>): set<seq<string>> {
    set f, d | f in files && d in Prefixes(f.directory) :: d
  }

  lemma OneFileMore(files: set<Path>, f: Path)
    ensures DirectoriesOf(files + {f}) == DirectoriesOf(files) + Prefixes(f.directory)
  {
    hide Prefixes;
  }

  /** The number of files and directories that registering these files amounts to. */
  function Count(files: set<Path>): nat {
    |files| + |DirectoriesOf(files)|
  }

  lemma CountGrows(a: set<Path>, b: set<Path>)
    requires a <= b
    ensures Count(a) <= Count(b)
  {
    SubsetSize(a, b);
    SubsetSize(DirectoriesOf(a), DirectoriesOf(b));
  }

  class Registry {
    var files: set<Path>
    var directories: set<seq<string>>

    ghost predicate Valid() reads this {
      directories == DirectoriesOf(files)
    }

    constructor ()
      ensures Valid() && files == {}
    {
      files, directories := {}, {};
    }

    /** Registers one file with the directories above it. */
    method Add(target: Path) returns (s: Status)
      requires Valid()
      modifies this
      ensures Valid() && files == old(files) + {target}
      ensures s == if target in old(files) || Count(files) <= MAX_OPERATION_PATHS then Ok else Failed(PathLimit)
    {
      hide DirectoriesOf;
      assert target in files ==> files + {target} == files;
      if target in files { return Ok; }
      ghost var before := directories;
      OneFileMore(files, target);
      var directory, depth := [], 0;
      directories := directories + {directory};
      while depth < |target.directory|
        invariant depth <= |target.directory| && directory == target.directory[..depth]
        invariant directories == before + Prefixes(directory) && files == old(files)
      {
        directory, depth := directory + [target.directory[depth]], depth + 1;
        assert directory[..|directory| - 1] == target.directory[..depth - 1];
        directories := directories + {directory};
      }
      assert directory == target.directory;
      files := files + {target};
      s := if |files| + |directories| > MAX_OPERATION_PATHS then Failed(PathLimit) else Ok;
    }

    /** Creates that many empty temporaries under names nobody else uses, and registers them. */
    method PrepareTemporaries(directory: seq<string>, count: nat) returns (s: Status)
      requires Valid() && Count(files) <= MAX_OPERATION_PATHS && Prefixes(directory) <= directories
      modifies this
      ensures Valid() && (s.Ok? <==> Count(old(files)) + count <= MAX_OPERATION_PATHS)
      ensures s.Ok? ==> Count(files) == Count(old(files)) + count
      ensures s.Failed? ==> s.error == PathLimit
    {
      var made := 0;
      while made < count
        invariant made <= count && Valid() && directories == old(directories)
        invariant Count(files) == Count(old(files)) + made <= MAX_OPERATION_PATHS
      {
        var serial := FreshSerial();
        var temporary := Path(directory, Temporary(serial));
        ghost var before := files;
        s := Add(temporary);
        OneFileMore(before, temporary);
        assert DirectoriesOf(files) == DirectoriesOf(before);
        if s.Failed? { return; }
        made := made + 1;
      }
      s := Ok;
    }

    method FreshSerial() returns (serial: nat)
      ensures forall f :: f in files ==> f.name != Temporary(serial)
    {
      ghost var taken := set f | f in files && f.name.Temporary? :: f.name.serial;
      ghost var bound := Above(taken);
      assert forall f :: f in files && f.name.Temporary? ==> f.name.serial in taken;
      assert forall f :: f in files ==> f.name != Temporary(bound);
      serial :| forall f :: f in files ==> f.name != Temporary(serial);
    }

    /** What every mutation does first. It fails exactly if the targets, the directories above them and the
        temporaries are more than the limit allows, in whatever order they are met. */
    method Register(targets: seq<Path>, temporaries: nat) returns (s: Status)
      requires Valid() && files == {} && targets != []
      modifies this
      ensures s.Ok? <==> Count(Elements(targets)) + temporaries <= MAX_OPERATION_PATHS
      ensures s.Failed? ==> s.error == PathLimit
    {
      for i := 0 to |targets|
        invariant Valid() && files == Elements(targets[..i]) && Count(files) <= MAX_OPERATION_PATHS
      {
        ghost var before := files;
        s := Add(targets[i]);
        assert targets[i] in before ==> files == before;
        assert Elements(targets[..i + 1]) == Elements(targets[..i]) + {targets[i]};
        if s.Failed? {
          CountGrows(files, Elements(targets));
          return;
        }
      }
      assert targets[..|targets|] == targets;
      assert targets[0] in files;
      s := PrepareTemporaries(targets[0].directory, temporaries);
    }
  }

  // ----- how many paths the two mutations of a log register --------------------------------------------

  function Archives(directory: seq<string>, stream: Stream, retained: nat): set<Path> {
    set i | 1 <= i <= retained :: Path(directory, Archive(stream, i))
  }

  lemma {:induction false} ArchivesSize(directory: seq<string>, stream: Stream, retained: nat)
    ensures |Archives(directory, stream, retained)| == retained
  {
    if retained > 0 {
      ArchivesSize(directory, stream, retained - 1);
      assert Archives(directory, stream, retained)
          == Archives(directory, stream, retained - 1) + {Path(directory, Archive(stream, retained))};
    }
  }

  lemma TargetsSize(directory: seq<string>, stream: Stream, retained: nat)
    ensures |Elements(Targets(directory, stream, retained))| == retained + 2
  {
    var archives := Archives(directory, stream, retained);
    ElementsOfTargets(directory, stream, retained);
    ArchivesSize(directory, stream, retained);
    assert Path(directory, Current(stream)) !in archives;
    assert Path(directory, Generation(stream)) !in archives + {Path(directory, Current(stream))};
  }

  lemma ElementsOfTargets(directory: seq<string>, stream: Stream, retained: nat)
    ensures Elements(Targets(directory, stream, retained))
      == Archives(directory, stream, retained) + {Path(directory, Current(stream))}
         + {Path(directory, Generation(stream))}
  {
    var targets := Targets(directory, stream, retained);
    forall t | t in Archives(directory, stream, retained) ensures t in targets {
      assert targets[t.name.number + 1] == t;
    }
  }

  lemma TargetsOfOneStream(directory: seq<string>, stream: Stream, retained: nat)
    ensures forall t :: t in Targets(directory, stream, retained) ==>
      t.directory == directory && !t.name.Temporary? && t.name.stream == stream
  {
  }

  lemma {:induction false} PrefixesSize(directory: seq<string>)
    ensures |Prefixes(directory)| == |directory| + 1
    ensures forall d :: d in Prefixes(directory) ==> |d| <= |directory|
  {
    if directory != [] {
      PrefixesSize(directory[..|directory| - 1]);
    }
  }

  lemma OneDirectory(files: set<Path>, directory: seq<string>)
    requires files != {} && forall f :: f in files ==> f.directory == directory
    ensures Count(files) == |files| + |directory| + 1
  {
    var f :| f in files;
    assert DirectoriesOf(files) == Prefixes(directory);
    PrefixesSize(directory);
  }

  lemma BothStreams(directory: seq<string>, retained: nat)
    ensures var targets := Targets(directory, Stdout, retained) + Targets(directory, Stderr, retained);
      Count(Elements(targets)) == 2 * (retained + 2) + |directory| + 1
  {
    var out, err := Targets(directory, Stdout, retained), Targets(directory, Stderr, retained);
    TargetsSize(directory, Stdout, retained);
    TargetsSize(directory, Stderr, retained);
    TargetsOfOneStream(directory, Stdout, retained);
    TargetsOfOneStream(directory, Stderr, retained);
    assert Elements(out + err) == Elements(out) + Elements(err);
    assert out[0] in Elements(out + err);
    OneDirectory(Elements(out + err), directory);
  }

  lemma OneStream(directory: seq<string>, stream: Stream, retained: nat)
    ensures Count(Elements(Targets(directory, stream, retained))) == retained + 2 + |directory| + 1
  {
    TargetsSize(directory, stream, retained);
    TargetsOfOneStream(directory, stream, retained);
    assert Targets(directory, stream, retained)[0] in Elements(Targets(directory, stream, retained));
    OneDirectory(Elements(Targets(directory, stream, retained)), directory);
  }

  /** A log lives two directories below the root: the worktree and the task. Opening both streams with
      fourteen temporaries stays within the limit exactly up to 53 retained files, and a rotation with its
      seven for every count the policy admits. */
  lemma LimitIsReachedAt54(directory: seq<string>, retained: nat)
    requires |directory| == 2
    ensures
      Count(Elements(Targets(directory, Stdout, retained)
            + Targets(directory, Stderr, retained))) + 14 <= MAX_OPERATION_PATHS
      <==> retained <= 53
    ensures retained <= MAX_RETAINED_LOG_FILES ==>
      forall stream :: Count(Elements(Targets(directory, stream, retained))) + 7 <= MAX_OPERATION_PATHS
  {
    BothStreams(directory, retained);
    forall stream ensures Count(Elements(Targets(directory, stream, retained))) == retained + 5 {
      OneStream(directory, stream, retained);
    }
  }
}
