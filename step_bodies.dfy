/** What the three versions of the Xray fixtures share: how the effect of one snap reaches the
    test's files and the active step, and how a step body runs its snaps. */
module StepBodies {
  import opened Common
  import opened Records

  /** The effect of one call of snap: it wrote one file and returns its path, it wrote nothing
      and returns undefined, or it threw. */
  datatype SnapOutcome = Wrote(path: string, bytes: seq<byte>) | NoFile | Failed(message: string)

  /** A version's snap, as a function of the call. */
  type SnapRule = SnapCall -> SnapOutcome

  /** What the caller of snap sees. */
  function ExitOf(o: SnapOutcome): SnapExit {
    match o
    case Wrote(p, _) => SnapReturned(Some(p))
    case NoFile => SnapReturned(None)
    case Failed(m) => SnapRaised(m)
  }

  function Store(files: FileStore, o: SnapOutcome): FileStore {
    if o.Wrote? then files[o.path := o.bytes] else files
  }

  /** A path is registered only when snap wrote a file and a step is active. */
  function Register(active: Option<seq<string>>, o: SnapOutcome): Option<seq<string>> {
    if o.Wrote? && active.Some? then Some(active.value + [o.path]) else active
  }

  /** The files and extracted paths after a body ran, and how it ended. */
  datatype BodyRun = BodyRun(files: FileStore, extracted: seq<string>, completion: Completion)

  /** Runs the snaps of a body in order while a step is active; the first snap that throws
      makes the whole body throw its error, and nothing after it runs. */
  function RunBody(rule: SnapRule, files: FileStore, extracted: seq<string>,
                   snaps: seq<SnapCall>, end: Completion): BodyRun
    decreases |snaps|
  {
    if |snaps| == 0 then BodyRun(files, extracted, end)
    else
      var o := rule(snaps[0]);
      if o.Failed? then BodyRun(files, extracted, Throws(o.message))
      else RunBody(rule, Store(files, o), Register(Some(extracted), o).value, snaps[1..], end)
  }

  /** Running the snaps from the i-th on is running the i-th, then the rest. */
  lemma RunBodyAt(rule: SnapRule, files: FileStore, extracted: seq<string>, snaps: seq<SnapCall>, i: nat,
                  end: Completion)
    requires i < |snaps|
    ensures RunBody(rule, files, extracted, snaps[i..], end)
      == var o := rule(snaps[i]);
         if o.Failed? then BodyRun(files, extracted, Throws(o.message))
         else RunBody(rule, Store(files, o), Register(Some(extracted), o).value, snaps[i + 1..], end)
  {
    assert snaps[i..][0] == snaps[i] && snaps[i..][1..] == snaps[i + 1..];
  }

  /** How a body ends, read off the snaps alone: the error of the first snap that throws,
      otherwise the body's own ending. */
  function BodyCompletion(rule: SnapRule, snaps: seq<SnapCall>, end: Completion): Completion
    decreases |snaps|
  {
    if |snaps| == 0 then end
    else if rule(snaps[0]).Failed? then Throws(rule(snaps[0]).message)
    else BodyCompletion(rule, snaps[1..], end)
  }

  /** How a body ends does not depend on the files or on what was extracted before. */
  lemma {:induction false} RunBodyCompletion(rule: SnapRule, files: FileStore, extracted: seq<string>,
                                             snaps: seq<SnapCall>, end: Completion)
    ensures RunBody(rule, files, extracted, snaps, end).completion == BodyCompletion(rule, snaps, end)
    decreases |snaps|
  {
    if |snaps| > 0 {
      var o := rule(snaps[0]);
      if !o.Failed? {
        RunBodyCompletion(rule, Store(files, o), Register(Some(extracted), o).value, snaps[1..], end);
      }
    }
  }

  /** Running a body only appends to the extracted paths, every path it appends names a file
      it wrote, and no file disappears. */
  lemma {:induction false} RunBodyRegistersWrittenFiles(rule: SnapRule, files: FileStore, extracted: seq<string>,
                                                        snaps: seq<SnapCall>, end: Completion)
    requires forall p :: p in extracted ==> p in files
    ensures var r := RunBody(rule, files, extracted, snaps, end);
      && |extracted| <= |r.extracted| && r.extracted[..|extracted|] == extracted
      && (forall p :: p in r.extracted ==> p in r.files)
      && (forall p :: p in files ==> p in r.files)
    decreases |snaps|
  {
    if |snaps| > 0 {
      var o := rule(snaps[0]);
      if !o.Failed? {
        var files' := Store(files, o);
        var extracted' := Register(Some(extracted), o).value;
        RunBodyRegistersWrittenFiles(rule, files', extracted', snaps[1..], end);
        var r := RunBody(rule, files', extracted', snaps[1..], end);
        assert r.extracted[..|extracted|] == r.extracted[..|extracted'|][..|extracted|];
      }
    }
  }
}
