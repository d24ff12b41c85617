/** The driver `iterate` of main.go:68-257: gate every walked event into `importantEvents`, then
    print the records of each in turn. */
module Audit {
  import opened Json
  import opened Events
  import opened Timestamps
  import opened Importance
  import opened Extractor

  /** The printed records of a run, and the panic that ended it, if one did. */
  datatype Run = Run(output: seq<Record>, crash: Option<PanicSite>)

  /** The events the walk decodes, in discovery order. */
  function DecodeAll(files: seq<JsonFile>): (events: seq<ChangeEvent>)
    ensures |events| == |files|
    ensures forall i :: 0 <= i < |files| ==> events[i] == Decode(files[i])
  {
    seq(|files|, i requires 0 <= i < |files| => Decode(files[i]))
  }

  /** Both gates of main.go:162: in the window and important. */
  predicate Keeps(e: ChangeEvent, threshold: string)
  {
    e.document.Some? && AtOrAfter(e.document.value.modified.at, threshold) && Important(e.document.value)
  }

  /** `importantEvents` after the walk: the events that pass both gates, appended in discovery order. */
  function Kept(events: seq<ChangeEvent>, threshold: string): seq<ChangeEvent>
  {
    if events == [] then []
    else
      var last := events[|events| - 1];
      Kept(events[..|events| - 1], threshold) + (if Keeps(last, threshold) then [last] else [])
  }

  function Prepend(rs: seq<Record>, run: Run): Run
  {
    Run(rs + run.output, run.crash)
  }

  /** The handling of each gated event, in order. */
  function StepsOf(events: seq<ChangeEvent>): (steps: seq<Step>)
    ensures |steps| == |events|
    ensures forall i :: 0 <= i < |events| ==> steps[i] == Extract(events[i])
  {
    seq(|events|, i requires 0 <= i < |events| => Extract(events[i]))
  }

  /** Printing the steps in turn; the first panic ends the process. */
  function RunSteps(steps: seq<Step>): Run
  {
    if steps == [] then Run([], None)
    else
      match steps[0]
      case Emitted(rs) => Prepend(rs, RunSteps(steps[1..]))
      case Panicked(rs, site) => Run(rs, Some(site))
  }

  /** The extraction loop of main.go:175-257. */
  function ExtractAll(events: seq<ChangeEvent>): Run
  {
    RunSteps(StepsOf(events))
  }

  /** A walked event without a document panics at main.go:120, before anything is printed. */
  predicate SomeDocumentMissing(events: seq<ChangeEvent>)
  {
    exists i :: 0 <= i < |events| && events[i].document.None?
  }

  /** What a whole run over the walked files prints. */
  function RunOf(files: seq<JsonFile>, threshold: string): Run
  {
    var events := DecodeAll(files);
    if SomeDocumentMissing(events) then Run([], Some(NilDocument))
    else ExtractAll(Kept(events, threshold))
  }

  /** The `filepath.Walk` callback of main.go:76-169 over every walked file: decode it, then append it to
      `importantEvents` when it passes both gates. A file without a document stops the walk (the panic at
      main.go:120), reported as `missing`. */
  method CollectImportantEvents(files: seq<JsonFile>, threshold: string)
    returns (importantEvents: seq<ChangeEvent>, missing: bool)
    ensures missing <==> SomeDocumentMissing(DecodeAll(files))
    ensures !missing ==> importantEvents == Kept(DecodeAll(files), threshold)
  {
    ghost var events := DecodeAll(files);
    importantEvents := [];
    var i := 0;
    while i < |files|
      invariant 0 <= i <= |files|
      invariant forall j :: 0 <= j < i ==> events[j].document.Some?
      invariant importantEvents == Kept(events[..i], threshold)
    {
      var changeEvent := Decode(files[i]);
      if changeEvent.document.None? {
        assert events[i].document.None?;
        return importantEvents, true;
      }
      var isNewerThanMinimum := AtOrAfter(changeEvent.document.value.modified.at, threshold);
      var isImportantEvent := ClassifyImportance(changeEvent.document.value);
      if isNewerThanMinimum && isImportantEvent {
        importantEvents := importantEvents + [changeEvent];
      }
      assert events[..i + 1][..i] == events[..i];
      i := i + 1;
    }
    assert events[..|files|] == events;
    missing := false;
  }

  /** The loop of main.go:175-257: print the records of each important event in turn, stopping at a panic. */
  method PrintRecords(importantEvents: seq<ChangeEvent>) returns (output: seq<Record>, crash: Option<PanicSite>)
    ensures Run(output, crash) == ExtractAll(importantEvents)
  {
    ghost var steps := StepsOf(importantEvents);
    output := [];
    var k := 0;
    while k < |importantEvents|
      invariant 0 <= k <= |importantEvents|
      invariant RunSteps(steps) == Prepend(output, RunSteps(steps[k..]))
    {
      var step := Extract(importantEvents[k]);
      RunStepsAt(steps, k);
      if step.Panicked? {
        return output + step.before, Some(step.site);
      }
      PrependTwice(output, step.records, RunSteps(steps[k + 1..]));
      output := output + step.records;
      k := k + 1;
    }
    crash := None;
  }

  /** One turn of the print loop: the run from step k on. */
  lemma RunStepsAt(steps: seq<Step>, k: nat)
    requires k < |steps|
    ensures steps[k].Emitted? ==> RunSteps(steps[k..]) == Prepend(steps[k].records, RunSteps(steps[k + 1..]))
    ensures steps[k].Panicked? ==> RunSteps(steps[k..]) == Run(steps[k].before, Some(steps[k].site))
  {
    assert steps[k..][0] == steps[k] && steps[k..][1..] == steps[k + 1..];
  }

  lemma PrependTwice(a: seq<Record>, b: seq<Record>, run: Run)
    ensures Prepend(a, Prepend(b, run)) == Prepend(a + b, run)
  {
    assert a + (b + run.output) == (a + b) + run.output;
  }

  /** `iterate`, with the walked files and the RFC 3339 threshold `minimumDateInIso` given. */
  method Iterate(files: seq<JsonFile>, threshold: string) returns (output: seq<Record>, crash: Option<PanicSite>)
    ensures Run(output, crash) == RunOf(files, threshold)
  {
    var importantEvents, missing := CollectImportantEvents(files, threshold);
    if missing {
      return [], Some(NilDocument);
    }
    output, crash := PrintRecords(importantEvents);
  }

  /** The gates drop nothing that passes and add nothing that does not. */
  lemma {:induction false} KeptIff(events: seq<ChangeEvent>, threshold: string, x: ChangeEvent)
    ensures x in Kept(events, threshold) <==> x in events && Keeps(x, threshold)
  {
    if events != [] {
      var init := events[..|events| - 1];
      KeptIff(init, threshold, x);
      assert events == init + [events[|events| - 1]];
    }
  }

  /** Filtering preserves discovery order: the kept events of a concatenation are those of each part, in turn. */
  lemma {:induction false} KeptAppend(a: seq<ChangeEvent>, b: seq<ChangeEvent>, threshold: string)
    ensures Kept(a + b, threshold) == Kept(a, threshold) + Kept(b, threshold)
  {
    if b == [] {
      assert a + b == a;
    } else {
      var init := b[..|b| - 1];
      KeptAppend(a, init, threshold);
      assert (a + b)[..|a + b| - 1] == a + init;
    }
  }

  /** Gating twice keeps the same events. */
  lemma {:induction false} KeptIdempotent(events: seq<ChangeEvent>, threshold: string)
    ensures Kept(Kept(events, threshold), threshold) == Kept(events, threshold)
  {
    if events != [] {
      var init, last := events[..|events| - 1], events[|events| - 1];
      KeptIdempotent(init, threshold);
      var tail := if Keeps(last, threshold) then [last] else [];
      KeptAppend(Kept(init, threshold), tail, threshold);
      if Keeps(last, threshold) {
        assert tail[..0] == [];
      }
    }
  }

  /** An important event stamped exactly at the threshold is kept. */
  lemma {:induction false} BoundaryEventKept(e: ChangeEvent, threshold: string)
    requires e.document.Some? && e.document.value.modified.at == threshold && Important(e.document.value)
    ensures Kept([e], threshold) == [e]
  {
    ThresholdIsInclusive(threshold);
    assert [e][..0] == [];
  }

  /** Running steps is compositional: steps that do not panic contribute their records, then the rest runs. */
  lemma {:induction false} RunStepsAppend(a: seq<Step>, b: seq<Step>)
    requires RunSteps(a).crash.None?
    ensures RunSteps(a + b) == Prepend(RunSteps(a).output, RunSteps(b))
  {
    if a == [] {
      assert a + b == b;
    } else {
      assert (a + b)[0] == a[0] && (a + b)[1..] == a[1..] + b;
      RunStepsAppend(a[1..], b);
      var rest, tail := RunSteps(a[1..]).output, RunSteps(b);
      assert a[0].records + (rest + tail.output) == (a[0].records + rest) + tail.output;
    }
  }

  /** A panic ends the run: nothing after the step that panicked is printed. */
  lemma {:induction false} RunStepsStopsAtPanic(a: seq<Step>, b: seq<Step>)
    requires RunSteps(a).crash.Some?
    ensures RunSteps(a + b) == RunSteps(a)
  {
    assert a != [];
    assert (a + b)[0] == a[0] && (a + b)[1..] == a[1..] + b;
    if a[0].Emitted? {
      RunStepsStopsAtPanic(a[1..], b);
    }
  }

  lemma StepsOfAppend(a: seq<ChangeEvent>, b: seq<ChangeEvent>)
    ensures StepsOf(a + b) == StepsOf(a) + StepsOf(b)
  {
    var l, r := StepsOf(a + b), StepsOf(a) + StepsOf(b);
    forall i | 0 <= i < |a + b|
      ensures l[i] == r[i]
    {
      if i < |a| {
        assert (a + b)[i] == a[i];
      } else {
        assert (a + b)[i] == b[i - |a|];
      }
    }
  }

  /** The events of a concatenation are handled as those of each part, in turn. */
  lemma ExtractAllAppend(a: seq<ChangeEvent>, b: seq<ChangeEvent>)
    ensures ExtractAll(a).crash.None? ==> ExtractAll(a + b) == Prepend(ExtractAll(a).output, ExtractAll(b))
    ensures ExtractAll(a).crash.Some? ==> ExtractAll(a + b) == ExtractAll(a)
  {
    StepsOfAppend(a, b);
    if ExtractAll(a).crash.None? {
      RunStepsAppend(StepsOf(a), StepsOf(b));
    } else {
      RunStepsStopsAtPanic(StepsOf(a), StepsOf(b));
    }
  }

  /** Every printed record comes from one of the steps. */
  lemma {:induction false} RunStepsRecordOrigin(steps: seq<Step>, k: nat)
    requires k < |RunSteps(steps).output|
    ensures exists i, j :: 0 <= i < |steps| && 0 <= j < |Output(steps[i])| && RunSteps(steps).output[k] == Output(steps[i])[j]
  {
    var head := Output(steps[0]);
    if k < |head| {
      assert RunSteps(steps).output[k] == Output(steps[0])[k];
    } else {
      RunStepsRecordOrigin(steps[1..], k - |head|);
      var i, j :| 0 <= i < |steps[1..]| && 0 <= j < |Output(steps[1..][i])| && RunSteps(steps[1..]).output[k - |head|] == Output(steps[1..][i])[j];
      assert RunSteps(steps).output[k] == Output(steps[i + 1])[j];
    }
  }

  /** What a run prints lies in the window, and the trace fallback is never reached. */
  lemma RunWithinWindow(files: seq<JsonFile>, threshold: string)
    ensures var out := RunOf(files, threshold).output;
      forall k :: 0 <= k < |out| ==> !out[k].Trace? && AtOrAfter(out[k].at, threshold)
  {
    var events := DecodeAll(files);
    if !SomeDocumentMissing(events) {
      var kept := Kept(events, threshold);
      var steps := StepsOf(kept);
      var out := RunSteps(steps).output;
      forall k | 0 <= k < |out|
        ensures !out[k].Trace? && AtOrAfter(out[k].at, threshold)
      {
        RunStepsRecordOrigin(steps, k);
        var i, j :| 0 <= i < |steps| && 0 <= j < |Output(steps[i])| && out[k] == Output(steps[i])[j];
        KeptIff(events, threshold, kept[i]);
      }
    }
  }

  /** Only "updated" events are turned into records: a run over events of other types prints nothing
      and does not panic. */
  lemma {:induction false} RunStepsOfNothing(steps: seq<Step>)
    requires forall i :: 0 <= i < |steps| ==> steps[i] == Emitted([])
    ensures RunSteps(steps) == Run([], None)
  {
    if steps != [] {
      assert forall i :: 0 <= i < |steps[1..]| ==> steps[1..][i] == steps[i + 1];
      RunStepsOfNothing(steps[1..]);
    }
  }

  /** A corpus without "updated" events prints nothing; the only possible failure is a missing document. */
  lemma NoUpdatesNoRecords(files: seq<JsonFile>, threshold: string)
    requires forall i :: 0 <= i < |files| ==> Decode(files[i]).eventType != UpdatedType
    ensures RunOf(files, threshold).output == []
    ensures RunOf(files, threshold).crash.None? || RunOf(files, threshold).crash == Some(NilDocument)
  {
    var events := DecodeAll(files);
    var kept := Kept(events, threshold);
    forall i | 0 <= i < |kept|
      ensures kept[i].eventType != UpdatedType
    {
      KeptIff(events, threshold, kept[i]);
    }
    RunStepsOfNothing(StepsOf(kept));
  }
}
