/** internal/tracelog/writer.go and the trace part of internal/store: the record an acquisition leaves behind. */
module TraceLog {
  import opened Common
  import opened Text
  import opened Model

  datatype TraceStatus = Running | Completed | Failed | Canceled

  /** What the stages have produced so far. The proposal diagnostics are left out. */
  datatype Work = Work(
    observations: seq<string>, candidates: seq<Candidate>, probes: seq<Probe>, promotions: seq<Promotion>)

  const NO_WORK := Work([], [], [], [])

  /** `failedStage` stands for the error of the record: its code names the stage. */
  datatype TraceRequest<S> = TraceRequest(traceID: string, startedAt: string, work: Work, failedStage: Option<S>)

  datatype Trace<S> = Trace(id: string, startedAt: string, status: TraceStatus, work: Work, failedStage: Option<S>)

  /** One reading of the clock, as an id and as a text. */
  datatype Stamp = Stamp(traceID: string, text: string)

  predicate GoodStamp(stamp: Stamp) {
    Trimmed(stamp.traceID) && stamp.traceID != "" && Trimmed(stamp.text) && stamp.text != ""
  }

  function BuildTrace<S>(request: TraceRequest<S>, status: TraceStatus, stamp: Stamp): (r: Trace<S>)
    ensures GoodStamp(stamp) ==> Trimmed(r.id) && r.id != "" && Trimmed(r.startedAt) && r.startedAt != ""
    ensures Trimmed(request.traceID) && request.traceID != "" ==> r.id == request.traceID
    ensures Trimmed(request.startedAt) && request.startedAt != "" ==> r.startedAt == request.startedAt
    ensures Blank(request.traceID) ==> r.id == stamp.traceID
    ensures Blank(request.startedAt) ==> r.startedAt == stamp.text
    ensures r.status == status && r.work == request.work && r.failedStage == request.failedStage
  {
    var startedAt := TrimSpace(request.startedAt);
    var id := TrimSpace(request.traceID);
    Trace(if id == "" then stamp.traceID else id, if startedAt == "" then stamp.text else startedAt,
      status, request.work, request.failedStage)
  }

  /** ValidateTrace and validateRecordID: a trace is stored under a directory named by its id. */
  predicate Storable(id: string) {
    !Blank(id) && id != "." && id != ".." && '/' !in id && '\\' !in id
  }

  /** One call of the writer and the record it stored, if it did. */
  datatype Call<S> = Call(status: TraceStatus, request: TraceRequest<S>, wrote: Option<Trace<S>>)

  class Writer<S> {
    var traces: map<string, Trace<S>>
    /** Every call ever made, in order. */
    ghost var calls: seq<Call<S>>

    constructor ()
      ensures traces == map[] && calls == []
    {
      traces := map[];
      calls := [];
    }

    /** write: refuses an unnamed terminal trace and a done context, otherwise saves one whole record or nothing. */
    method Write(request: TraceRequest<S>, status: TraceStatus, contextDone: bool, stamp: Stamp, saveFails: bool)
      returns (r: Option<Trace<S>>)
      modifies this
      ensures calls == old(calls) + [Call(status, request, r)]
      ensures r.Some? <==>
        && (status != Running ==> !Blank(request.traceID)) && !contextDone && !saveFails
        && Storable(BuildTrace(request, status, stamp).id)
      ensures r.Some? ==> r.value == BuildTrace(request, status, stamp)
      ensures r.Some? ==>
        !Blank(r.value.id) && r.value.id !in {".", ".."} && '/' !in r.value.id && '\\' !in r.value.id
      ensures r.None? ==>
        || contextDone || saveFails || (status != Running && Blank(request.traceID))
        || var id := BuildTrace(request, status, stamp).id;
           Blank(id) || id in {".", ".."} || '/' in id || '\\' in id
      ensures traces == if r.Some? then old(traces)[r.value.id := r.value] else old(traces)
    {
      r := None;
      if (status == Running || !Blank(request.traceID)) && !contextDone {
        var trace := BuildTrace(request, status, stamp);
        if Storable(trace.id) && !saveFails {
          traces := traces[trace.id := trace];
          r := Some(trace);
        }
      }
      calls := calls + [Call(status, request, r)];
    }
  }
}
