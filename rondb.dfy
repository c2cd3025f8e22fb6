/**
 * The RonDB binding of the benchmark client: one `RonDBClient` per worker
 * thread. It hands out worker ordinals and creates the shutdown latch from
 * a run-wide context, always builds a ClusterJ writer, builds (or reuses the
 * writer as) the reader chosen by the read-API selector, routes every
 * operation to the reader or the writer, turns backend exceptions into the
 * ERROR status, and at cleanup waits for the whole cohort before releasing
 * its backends.
 *
 * The backends are objects that record the calls they receive; how a
 * backend answers a call (a status, or an exception) is a parameter.
 */
module RonDB {
  import opened Wrappers
  import Decimal

  /** The status an operation reports. */
  datatype Status = OK | ERROR | NOT_FOUND | NOT_IMPLEMENTED | Other(name: string)

  /** Why an `IllegalArgumentException` was raised. */
  datatype Reason =
    | WrongReadApiType     // the read-API selector names no known client
    | NegativeLatchCount   // a latch was asked to count down from a negative number

  /** The exceptions the client raises, passes on, or catches. */
  datatype Exception =
    | DBException(cause: Option<Exception>)
    | IllegalArgumentException(reason: Reason)
    | InterruptedException
    | NullPointerException
    | RuntimeException(wrapped: Exception)
    | BackendException(description: string)  // anything else a backend raises

  /** How a backend answers a call: it returns a status or raises. */
  datatype Answer = Returns(status: Status) | Raises(e: Exception)

  /** The three kinds of backend client. */
  datatype Kind = ClusterJ | Rest | Grpc

  /**
   * An operation as a workload issues it. A field list of `None` stands
   * for Java's `null` ("all fields"); record values are abstracted to
   * strings.
   */
  datatype Operation =
    | Read(table: string, key: string, fields: Option<set<string>>)
    | BatchRead(table: string, keys: seq<string>, fieldSets: Option<seq<set<string>>>)
    | Scan(table: string, startkey: string, recordcount: int, fields: Option<set<string>>)
    | Update(table: string, key: string, values: map<string, string>)
    | Insert(table: string, key: string, values: map<string, string>)
    | Delete(table: string, key: string)
    | BatchUpdate(table: string, keys: seq<string>, valueSets: seq<map<string, string>>)

  /** A call a backend receives. */
  datatype Call = InitCall | CleanupCall | Perform(op: Operation)

  /** Which of a worker's two backends serves an operation. */
  datatype Role = Reader | Writer

  /** An operation as forwarded: the backend that gets it, and what it gets. */
  datatype Forward = Forward(role: Role, op: Operation)

  /**
   * The properties `init` consults, already parsed: the thread count
   * (absent means "1"), the read-API selector, and the workload's field
   * count and field-name prefix.
   */
  datatype Config = Config(threadCount: Option<int>, readApiType: string,
                           fieldCount: int, fieldNamePrefix: string)

  /** Whether a cleanup got past the latch: a worker still waiting for its
   *  peers is `Parked`; otherwise it is `Released` with how cleanup ended. */
  datatype Release = Parked | Released(outcome: Outcome<Exception>)

  // ---------------------------------------------------------------------
  // Case-insensitive comparison against the selector names

  /**
   * The character `compareToIgnoreCase` treats `c` as when it is compared
   * with an upper-case ASCII letter: ASCII lower-case letters fold to upper
   * case, and so do the four non-ASCII characters whose upper or lower case
   * is an ASCII letter (dotless i, long s, dotted capital I, Kelvin sign).
   */
  function FoldCase(c: char): char {
    if 'a' <= c <= 'z' then ((c as int) - 32) as char
    else if c == '\U{0131}' || c == '\U{0130}' then 'I'
    else if c == '\U{017F}' then 'S'
    else if c == '\U{212A}' then 'K'
    else c
  }

  /** `a.compareToIgnoreCase(b) == 0`, for a `b` made of ASCII letters. */
  predicate EqualsIgnoreCase(a: string, b: string) {
    |a| == |b| && forall i :: 0 <= i < |a| ==> FoldCase(a[i]) == FoldCase(b[i])
  }

  const CLUSTERJ := "CLUSTERJ"
  const REST := "REST"
  const GRPC := "GRPC"

  function KindName(k: Kind): string {
    match k
    case ClusterJ => CLUSTERJ
    case Rest => REST
    case Grpc => GRPC
  }

  /** The client `initClient` builds for a selector, tried in the order
   *  CLUSTERJ, REST, GRPC; `None` when the selector names none of them. */
  function ClientKind(clientType: string): Option<Kind> {
    if EqualsIgnoreCase(clientType, CLUSTERJ) then Some(ClusterJ)
    else if EqualsIgnoreCase(clientType, REST) then Some(Rest)
    else if EqualsIgnoreCase(clientType, GRPC) then Some(Grpc)
    else None
  }

  /** A selector picks a kind exactly when it equals that kind's name,
   *  ignoring case: no selector matches two names. */
  lemma ClientKindExact(clientType: string, k: Kind)
    ensures ClientKind(clientType) == Some(k) <==> EqualsIgnoreCase(clientType, KindName(k))
  {
    if |clientType| == 4 && EqualsIgnoreCase(clientType, GRPC) {
      assert FoldCase(clientType[0]) == 'G';
    }
  }

  /** The selector matches whatever the case of its letters. */
  lemma SelectorIgnoresCase()
    ensures ClientKind("clusterj") == Some(ClusterJ)
    ensures ClientKind("Rest") == Some(Rest)
    ensures ClientKind("gRPC") == Some(Grpc)
  {
    assert forall i :: 0 <= i < 8 ==> FoldCase("clusterj"[i]) == FoldCase(CLUSTERJ[i]);
    assert EqualsIgnoreCase("Rest", REST);
    assert !EqualsIgnoreCase("gRPC", REST) by { assert FoldCase("gRPC"[0]) != FoldCase(REST[0]); }
    assert forall i :: 0 <= i < 4 ==> FoldCase("gRPC"[i]) == FoldCase(GRPC[i]);
  }

  /** A word that names no client selects nothing. */
  lemma SelectorRejectsOthers()
    ensures ClientKind("HTTP") == None
  {
    assert !EqualsIgnoreCase("HTTP", REST) by { assert FoldCase("HTTP"[0]) != FoldCase(REST[0]); }
    assert !EqualsIgnoreCase("HTTP", GRPC) by { assert FoldCase("HTTP"[0]) != FoldCase(GRPC[0]); }
  }

  // ---------------------------------------------------------------------
  // Initialisation failures

  /**
   * The exception an initialisation failure leaves the client as: a
   * `DBException` passes unchanged, anything else becomes the cause of a
   * new `DBException`.
   */
  function AsDBException(e: Exception): (r: Exception)
    ensures r.DBException?
    ensures e.DBException? <==> r == e
    ensures !e.DBException? ==> r.cause == Some(e)
  {
    if e.DBException? then e else DBException(Some(e))
  }

  /** The size a newly created latch gets: the thread count, by default 1. */
  function LatchSize(config: Config): int {
    config.threadCount.GetOr(1)
  }

  /**
   * How `init` ends, given whether the latch already existed and what the
   * writer's and the reader's construction and `init()` raise: creating a
   * latch with a negative count fails first (and is not wrapped); then the
   * writer; then, unless the selector is CLUSTERJ, an unknown selector and
   * then the reader.
   */
  function InitOutcome(latchPresent: bool, config: Config,
                       writerFault: Option<Exception>, readerFault: Option<Exception>): Outcome<Exception>
  {
    if !latchPresent && LatchSize(config) < 0 then Fail(IllegalArgumentException(NegativeLatchCount))
    else if writerFault.Some? then Fail(AsDBException(writerFault.value))
    else if EqualsIgnoreCase(config.readApiType, CLUSTERJ) then Pass
    else if ClientKind(config.readApiType).None? then
      Fail(AsDBException(IllegalArgumentException(WrongReadApiType)))
    else if readerFault.Some? then Fail(AsDBException(readerFault.value))
    else Pass
  }

  /**
   * `init` succeeds exactly when the latch can be had, the writer comes up,
   * and the reader is the writer or a REST or gRPC client that comes up.
   * Every failure but the latch's is a `DBException`, and a backend's own
   * `DBException` is the one raised.
   */
  lemma InitOutcomeCases(latchPresent: bool, config: Config,
                         writerFault: Option<Exception>, readerFault: Option<Exception>)
    ensures var r := InitOutcome(latchPresent, config, writerFault, readerFault);
            && (r == Pass <==>
                  (latchPresent || LatchSize(config) >= 0) && writerFault.None? &&
                  (EqualsIgnoreCase(config.readApiType, CLUSTERJ) ||
                   (ClientKind(config.readApiType) in {Some(Rest), Some(Grpc)} && readerFault.None?)))
            && (r.Fail? ==> r.error.DBException? || r.error == IllegalArgumentException(NegativeLatchCount))
            && (((latchPresent || LatchSize(config) >= 0) && writerFault.Some? && writerFault.value.DBException?)
                ==> r == Fail(writerFault.value))
  {
    var api := config.readApiType;
    if !EqualsIgnoreCase(api, CLUSTERJ) {
      ClientKindExact(api, ClusterJ);
    }
  }

  // ---------------------------------------------------------------------
  // Field names

  /** The field names of the workload: the prefix followed by 0, 1, ...,
   *  fieldCount - 1. */
  function FieldNameSet(prefix: string, fieldCount: int): set<string> {
    set i | 0 <= i < fieldCount :: prefix + Decimal.IntToString(i)
  }

  lemma FieldNameSetStep(prefix: string, n: nat)
    ensures FieldNameSet(prefix, n + 1) == FieldNameSet(prefix, n) + {prefix + Decimal.IntToString(n)}
  {
  }

  /** Two indices give the same field name only when they are equal. */
  lemma FieldNameInjective(prefix: string, i: nat, j: nat)
    requires prefix + Decimal.IntToString(i) == prefix + Decimal.IntToString(j)
    ensures i == j
  {
    var a, b := prefix + Decimal.IntToString(i), prefix + Decimal.IntToString(j);
    assert Decimal.NatToString(i) == a[|prefix|..] == b[|prefix|..] == Decimal.NatToString(j);
    Decimal.NatToStringInjective(i, j);
  }

  /** There are exactly `fieldCount` field names (none for a count of zero
   *  or less): no two indices collide. */
  lemma {:induction false} FieldNameSetSize(prefix: string, fieldCount: int)
    ensures |FieldNameSet(prefix, fieldCount)| == if fieldCount < 0 then 0 else fieldCount
    decreases if fieldCount < 0 then 0 else fieldCount
  {
    if fieldCount <= 0 {
      assert FieldNameSet(prefix, fieldCount) == {};
    } else {
      var n := fieldCount - 1;
      FieldNameSetSize(prefix, n);
      FieldNameSetStep(prefix, n);
      if prefix + Decimal.IntToString(n) in FieldNameSet(prefix, n) {
        var i :| 0 <= i < n && prefix + Decimal.IntToString(i) == prefix + Decimal.IntToString(n);
        FieldNameInjective(prefix, i, n);
        assert false;
      }
    }
  }

  /** Builds the field-name set one name at a time. */
  method BuildFieldNames(prefix: string, fieldCount: int) returns (names: set<string>)
    ensures names == FieldNameSet(prefix, fieldCount)
  {
    names := {};
    var i := 0;
    while i < fieldCount
      invariant 0 <= i && (i <= fieldCount || i == 0)
      invariant names == FieldNameSet(prefix, i)
    {
      FieldNameSetStep(prefix, i);
      names := names + {prefix + Decimal.IntToString(i)};
      i := i + 1;
    }
    assert FieldNameSet(prefix, i) == FieldNameSet(prefix, fieldCount);
  }

  // ---------------------------------------------------------------------
  // Routing

  /** The field list actually forwarded: the caller's, or all known names. */
  function Defaulted(fields: Option<set<string>>, fieldNames: Option<set<string>>): Option<set<string>> {
    if fields.Some? then fields else fieldNames
  }

  /**
   * Where each operation goes and what is forwarded: reads and batch reads
   * go to the reader, everything else (scans included) to the writer; a
   * read or a scan without a field list asks for every known field name.
   */
  function Route(op: Operation, fieldNames: Option<set<string>>): Forward {
    match op
    case Read(table, key, fields) => Forward(Reader, Read(table, key, Defaulted(fields, fieldNames)))
    case BatchRead(_, _, _) => Forward(Reader, op)
    case Scan(table, startkey, recordcount, fields) =>
      Forward(Writer, Scan(table, startkey, recordcount, Defaulted(fields, fieldNames)))
    case Update(_, _, _) => Forward(Writer, op)
    case Insert(_, _, _) => Forward(Writer, op)
    case Delete(_, _) => Forward(Writer, op)
    case BatchUpdate(_, _, _) => Forward(Writer, op)
  }

  /** Reads and batch reads, and only they, go to the reader. */
  lemma RouteRole(op: Operation, fieldNames: Option<set<string>>)
    ensures Route(op, fieldNames).role == Reader <==> op.Read? || op.BatchRead?
    ensures Route(op, fieldNames).role == Writer <==>
              op.Scan? || op.Update? || op.Insert? || op.Delete? || op.BatchUpdate?
  {
  }

  /**
   * The forwarded operation is the issued one, except that a read or scan
   * without a field list asks for the known field names; a batch read's
   * field lists pass unchanged, even when absent.
   */
  lemma RouteForwards(op: Operation, fieldNames: Option<set<string>>)
    ensures var f := Route(op, fieldNames);
            && (f.op != op ==> (op.Read? || op.Scan?) && op.fields == None && f.op.fields == fieldNames)
            && ((op.Read? || op.Scan?) ==> f.op == op.(fields := if op.fields.Some? then op.fields else fieldNames))
            && (op.BatchRead? ==> f.op == op)
  {
  }

  /** What the caller sees: the backend's status, or ERROR for any exception. */
  function StatusOf(answer: Answer): (s: Status)
    ensures answer.Returns? ==> s == answer.status
    ensures answer.Raises? ==> s == ERROR
  {
    match answer
    case Returns(status) => status
    case Raises(_) => ERROR
  }

  /** How cleanup ends once released: each backend's own exception passes
   *  unchanged and stops the rest; a missing backend is a null dereference. */
  function ReleaseOutcome(hasReader: bool, hasWriter: bool,
                          readerFault: Option<Exception>, writerFault: Option<Exception>): Outcome<Exception>
  {
    if !hasReader then Fail(NullPointerException)
    else if readerFault.Some? then Fail(readerFault.value)
    else if !hasWriter then Fail(NullPointerException)
    else if writerFault.Some? then Fail(writerFault.value)
    else Pass
  }

  // ---------------------------------------------------------------------
  // The objects

  /** A backend client; it records every call it receives. */
  class Backend {
    const kind: Kind
    /** The worker ordinal a REST or gRPC client is built with. */
    const threadID: Option<int>
    var calls: seq<Call>

    constructor (kind: Kind, threadID: Option<int>)
      ensures this.kind == kind && this.threadID == threadID && calls == []
    {
      this.kind := kind;
      this.threadID := threadID;
      calls := [];
    }

    method Receive(c: Call)
      modifies this
      ensures calls == old(calls) + [c]
    {
      calls := calls + [c];
    }
  }

  /** A latch that counts down to zero and then stays there. */
  class Latch {
    var count: nat

    constructor (count: nat)
      ensures this.count == count
    {
      this.count := count;
    }

    method CountDown()
      modifies this
      ensures count == if old(count) == 0 then 0 else old(count) - 1
    {
      if count > 0 {
        count := count - 1;
      }
    }
  }

  /**
   * What all workers of one run share: the next worker ordinal and the
   * shutdown latch (absent until the first `init`). `issued` lists the
   * ordinals handed out so far.
   */
  class RunContext {
    var maxThreadID: int
    var latch: Latch?
    ghost var issued: seq<int>

    /** The ordinals handed out are 0, 1, ..., in order. */
    ghost predicate Valid()
      reads this
    {
      maxThreadID == |issued| && forall i :: 0 <= i < |issued| ==> issued[i] == i
    }

    constructor ()
      ensures Valid() && maxThreadID == 0 && latch == null && issued == []
    {
      maxThreadID := 0;
      latch := null;
      issued := [];
    }

    /** Hands out the next ordinal. */
    method NextThreadID() returns (id: int)
      requires Valid()
      modifies this
      ensures Valid() && latch == old(latch)
      ensures id == old(maxThreadID) && id !in old(issued)
      ensures issued == old(issued) + [id] && maxThreadID == id + 1
    {
      id := maxThreadID;
      maxThreadID := maxThreadID + 1;
      issued := issued + [id];
    }
  }

  /**
   * Builds a backend and calls its `init()`; `fault` is what construction
   * or `init()` raises, which becomes a `DBException`.
   */
  method InitBackend(kind: Kind, threadID: Option<int>, fault: Option<Exception>)
    returns (r: Result<Backend, Exception>)
    ensures fault.Some? ==> r == Failure(AsDBException(fault.value))
    ensures fault.None? ==> r.Success? && fresh(r.value) && r.value.kind == kind
                            && r.value.threadID == threadID && r.value.calls == [InitCall]
  {
    if fault.Some? {
      return Failure(AsDBException(fault.value));
    }
    var b := new Backend(kind, threadID);
    b.Receive(InitCall);
    return Success(b);
  }

  /**
   * Builds the client a selector names: ClusterJ, or REST or gRPC built
   * with the worker's ordinal; an unknown selector raises an
   * `IllegalArgumentException`, which becomes a `DBException`.
   */
  method InitClient(clientType: string, threadID: int, fault: Option<Exception>)
    returns (r: Result<Backend, Exception>)
    ensures ClientKind(clientType).None? ==>
              r == Failure(AsDBException(IllegalArgumentException(WrongReadApiType)))
    ensures ClientKind(clientType).Some? && fault.Some? ==> r == Failure(AsDBException(fault.value))
    ensures ClientKind(clientType).Some? && fault.None? ==>
              && r.Success? && fresh(r.value) && Some(r.value.kind) == ClientKind(clientType)
              && r.value.threadID == (if r.value.kind == ClusterJ then None else Some(threadID))
              && r.value.calls == [InitCall]
  {
    var kind := ClientKind(clientType);
    if kind.None? {
      return Failure(AsDBException(IllegalArgumentException(WrongReadApiType)));
    }
    r := InitBackend(kind.value, if kind.value == ClusterJ then None else Some(threadID), fault);
  }

  /** The binding a worker thread uses. */
  class RonDBClient {
    const ctx: RunContext
    var dbReadClient: Backend?
    var clusterJClient: Backend?
    var fieldCount: int
    var fieldNames: Option<set<string>>
    var threadID: int

    constructor (ctx: RunContext)
      ensures this.ctx == ctx && dbReadClient == null && clusterJClient == null
      ensures fieldCount == 0 && fieldNames == None && threadID == 0
    {
      this.ctx := ctx;
      dbReadClient := null;
      clusterJClient := null;
      fieldCount := 0;
      fieldNames := None;
      threadID := 0;
    }

    /** The backends this worker holds. */
    function Backends(): set<Backend>
      reads this
    {
      (if dbReadClient == null then {} else {dbReadClient})
      + (if clusterJClient == null then {} else {clusterJClient})
    }

    /** The backend that plays `role`. */
    function Target(role: Role): Backend?
      reads this
    {
      if role == Reader then dbReadClient else clusterJClient
    }

    /**
     * Creates the latch if no worker has yet (sized by the thread count),
     * takes the next ordinal, builds the ClusterJ writer, makes the reader
     * the writer itself when the selector is CLUSTERJ (any case) and builds
     * the selected client otherwise, and records the field names. The first
     * exception ends `init` with the fields set so far.
     */
    method Init(config: Config, writerFault: Option<Exception>, readerFault: Option<Exception>)
      returns (r: Outcome<Exception>)
      requires ctx.Valid()
      modifies this, ctx
      ensures ctx.Valid()
      ensures r == InitOutcome(old(ctx.latch) != null, config, writerFault, readerFault)
      // the latch: made once, sized by the thread count
      ensures old(ctx.latch) != null ==> ctx.latch == old(ctx.latch)
      ensures old(ctx.latch) == null && LatchSize(config) >= 0 ==>
                ctx.latch != null && fresh(ctx.latch) && ctx.latch.count == LatchSize(config)
      ensures old(ctx.latch) == null && LatchSize(config) < 0 ==>
                ctx.latch == null && unchanged(this) && unchanged(ctx)
      // the ordinal: the next one, never handed out before
      ensures old(ctx.latch) != null || LatchSize(config) >= 0 ==>
                && threadID == old(ctx.maxThreadID) && threadID !in old(ctx.issued)
                && ctx.issued == old(ctx.issued) + [threadID]
      // the writer: always a fresh ClusterJ client
      ensures (old(ctx.latch) != null || LatchSize(config) >= 0) && writerFault.Some? ==>
                && clusterJClient == old(clusterJClient) && dbReadClient == old(dbReadClient)
                && fieldNames == old(fieldNames) && fieldCount == old(fieldCount)
      ensures (old(ctx.latch) != null || LatchSize(config) >= 0) && writerFault.None? ==>
                && clusterJClient != null && fresh(clusterJClient) && clusterJClient.kind == ClusterJ
                && clusterJClient.calls == [InitCall]
      // the reader: the writer itself exactly for CLUSTERJ, else a fresh REST or gRPC client
      ensures r.Pass? ==> (dbReadClient == clusterJClient <==> EqualsIgnoreCase(config.readApiType, CLUSTERJ))
      ensures r.Pass? && !EqualsIgnoreCase(config.readApiType, CLUSTERJ) ==>
                && dbReadClient != null && fresh(dbReadClient) && dbReadClient.kind in {Rest, Grpc}
                && Some(dbReadClient.kind) == ClientKind(config.readApiType)
                && dbReadClient.threadID == Some(threadID) && dbReadClient.calls == [InitCall]
      ensures r.Fail? ==> dbReadClient == old(dbReadClient) && fieldNames == old(fieldNames)
                          && fieldCount == old(fieldCount)
      // the field names
      ensures r.Pass? ==> fieldCount == config.fieldCount
                          && fieldNames == Some(FieldNameSet(config.fieldNamePrefix, config.fieldCount))
    {
      if ctx.latch == null {
        var size := LatchSize(config);
        if size < 0 {
          return Fail(IllegalArgumentException(NegativeLatchCount));
        }
        ctx.latch := new Latch(size);
      }

      threadID := ctx.NextThreadID();

      // writer
      var writer := InitBackend(ClusterJ, None, writerFault);
      if writer.Failure? {
        return Fail(writer.error);
      }
      clusterJClient := writer.value;

      // reader
      if EqualsIgnoreCase(config.readApiType, CLUSTERJ) {
        dbReadClient := clusterJClient;
      } else {
        var reader := InitClient(config.readApiType, threadID, readerFault);
        if reader.Failure? {
          return Fail(reader.error);
        }
        ClientKindExact(config.readApiType, ClusterJ);
        dbReadClient := reader.value;
      }

      fieldCount := config.fieldCount;
      var names := BuildFieldNames(config.fieldNamePrefix, fieldCount);
      fieldNames := Some(names);
      r := Pass;
    }

    /**
     * Runs one operation: forwards it to the backend `Route` chooses, which
     * answers `answer`, and reports that backend's status, or ERROR for an
     * exception (a missing backend raises one too). The other backend sees
     * nothing.
     */
    method Dispatch(op: Operation, answer: Answer) returns (status: Status)
      modifies Backends()
      ensures var f := Route(op, fieldNames);
              var target := Target(f.role);
              && (target == null ==> status == ERROR && unchanged(Backends()))
              && (target != null ==>
                    && status == StatusOf(answer)
                    && target.calls == old(target.calls) + [Perform(f.op)]
                    && unchanged(Backends() - {target}))
    {
      var f := Route(op, fieldNames);
      var target := Target(f.role);
      if target == null {
        return ERROR;
      }
      target.Receive(Perform(f.op));
      status := StatusOf(answer);
    }

    /** What the cleanup after the latch does to the backends: the reader
     *  is cleaned, then (unless that raised) the writer; one backend in
     *  both roles is cleaned twice. */
    static twostate predicate CleanupCalls(reader: Backend?, writer: Backend?, readerFault: Option<Exception>)
      reads reader, writer
    {
      if reader == null then writer == null || unchanged(writer)
      else if reader == writer then
        reader.calls == old(reader.calls) + (if readerFault.Some? then [CleanupCall] else [CleanupCall, CleanupCall])
      else
        && reader.calls == old(reader.calls) + [CleanupCall]
        && (writer != null ==>
              writer.calls == old(writer.calls) + (if readerFault.Some? then [] else [CleanupCall]))
    }

    /** The part of cleanup from the wait on: parked while peers are still
     *  to arrive, otherwise the backends are cleaned; an interrupt becomes
     *  a `RuntimeException`. */
    twostate predicate AwaitedAndCleaned(latchCount: nat, r: Release, interrupted: bool,
                                         readerFault: Option<Exception>, writerFault: Option<Exception>)
      reads this, Backends()
    {
      old(dbReadClient) == dbReadClient && old(clusterJClient) == clusterJClient &&
      if interrupted then r == Released(Fail(RuntimeException(InterruptedException))) && unchanged(Backends())
      else if latchCount > 0 then r == Parked && unchanged(Backends())
      else
        && r == Released(ReleaseOutcome(dbReadClient != null, clusterJClient != null, readerFault, writerFault))
        && CleanupCalls(dbReadClient, clusterJClient, readerFault)
    }

    /**
     * Waits on the latch and then cleans the reader and the writer. A
     * worker whose peers have not all counted down stays `Parked`, and
     * calling this again models the wait going on.
     */
    method AwaitAndClean(interrupted: bool, readerFault: Option<Exception>, writerFault: Option<Exception>)
      returns (r: Release)
      requires ctx.latch != null
      modifies Backends()
      ensures AwaitedAndCleaned(ctx.latch.count, r, interrupted, readerFault, writerFault)
    {
      if interrupted {
        return Released(Fail(RuntimeException(InterruptedException)));
      }
      if ctx.latch.count > 0 {
        return Parked;
      }
      if dbReadClient == null {
        return Released(Fail(NullPointerException));
      }
      dbReadClient.Receive(CleanupCall);
      if readerFault.Some? {
        return Released(Fail(readerFault.value));
      }
      if clusterJClient == null {
        return Released(Fail(NullPointerException));
      }
      clusterJClient.Receive(CleanupCall);
      if writerFault.Some? {
        return Released(Fail(writerFault.value));
      }
      r := Released(Pass);
    }

    /**
     * Counts the latch down, then waits for every peer and cleans the
     * backends (see `AwaitAndClean`). Without a latch (`init` never ran)
     * the count-down is a null dereference.
     */
    method Cleanup(interrupted: bool, readerFault: Option<Exception>, writerFault: Option<Exception>)
      returns (r: Release)
      modifies ctx.latch, Backends()
      ensures ctx.latch == old(ctx.latch)
      ensures ctx.latch == null ==> r == Released(Fail(NullPointerException)) && unchanged(Backends())
      ensures ctx.latch != null ==>
                && ctx.latch.count == (if old(ctx.latch.count) == 0 then 0 else old(ctx.latch.count) - 1)
                && AwaitedAndCleaned(ctx.latch.count, r, interrupted, readerFault, writerFault)
    {
      var latch := ctx.latch;
      if latch == null {
        return Released(Fail(NullPointerException));
      }
      latch.CountDown();
      r := AwaitAndClean(interrupted, readerFault, writerFault);
    }
  }

  // ---------------------------------------------------------------------
  // A run of two workers

  lemma FieldNamesOfTwo()
    ensures FieldNameSet("field", 2) == {"field0", "field1"}
  {
    assert Decimal.IntToString(0) == "0" && Decimal.IntToString(1) == "1";
    assert "field" + "0" == "field0" && "field" + "1" == "field1";
    assert FieldNameSet("field", 0) == {};
    FieldNameSetStep("field", 0);
    FieldNameSetStep("field", 1);
  }

  /**
   * A worker with a REST reader: its read reaches only the reader and its
   * scan and batch update only the ClusterJ writer; the read and the scan,
   * given no field list, ask for the two known fields; a backend exception
   * comes back as ERROR.
   */
  method RoutingRun() returns (statuses: seq<Status>, readerCalls: seq<Call>, writerCalls: seq<Call>)
    ensures statuses == [OK, ERROR, OK]
    ensures readerCalls == [InitCall, Perform(Read("usertable", "user1", Some({"field0", "field1"})))]
    ensures writerCalls == [InitCall,
                            Perform(Scan("usertable", "user1", 5, Some({"field0", "field1"}))),
                            Perform(BatchUpdate("usertable", ["user1"], [map["field0" := "v"]]))]
  {
    var ctx := new RunContext();
    assert EqualsIgnoreCase("rest", REST);
    assert ClientKind("rest") == Some(Rest);
    FieldNamesOfTwo();

    var w1 := new RonDBClient(ctx);
    var o1 := w1.Init(Config(Some(1), "rest", 2, "field"), None, None);
    assert o1 == Pass;
    var reader, writer := w1.dbReadClient, w1.clusterJClient;
    assert reader.calls == [InitCall] && writer.calls == [InitCall] && reader != writer;
    var names := Some({"field0", "field1"});
    assert w1.fieldNames == names;

    var s1 := w1.Dispatch(Read("usertable", "user1", None), Returns(OK));
    assert reader.calls == [InitCall, Perform(Read("usertable", "user1", names))];
    var s2 := w1.Dispatch(Scan("usertable", "user1", 5, None), Raises(BackendException("timeout")));
    assert writer.calls == [InitCall, Perform(Scan("usertable", "user1", 5, names))];
    var s3 := w1.Dispatch(BatchUpdate("usertable", ["user1"], [map["field0" := "v"]]), Returns(OK));
    statuses := [s1, s2, s3];
    readerCalls, writerCalls := reader.calls, writer.calls;
  }

  /**
   * Two workers sharing a run context with a thread count of 2 and a gRPC
   * reader, after both have run `init`: they get the ordinals 0 and 1, and
   * each holds its own freshly initialised reader and writer.
   */
  method StartTwoWorkers() returns (ctx: RunContext, w1: RonDBClient, w2: RonDBClient)
    ensures w1 != w2 && w1.ctx == ctx && w2.ctx == ctx
    ensures ctx.latch != null && ctx.latch.count == 2
    ensures w1.threadID == 0 && w2.threadID == 1
    ensures w1.dbReadClient != null && w1.clusterJClient != null && w1.dbReadClient != w1.clusterJClient
    ensures w2.dbReadClient != null && w2.clusterJClient != null && w2.dbReadClient != w2.clusterJClient
    ensures {w1.dbReadClient, w1.clusterJClient} !! {w2.dbReadClient, w2.clusterJClient}
    ensures w1.dbReadClient.calls == [InitCall] && w1.clusterJClient.calls == [InitCall]
    ensures w2.dbReadClient.calls == [InitCall] && w2.clusterJClient.calls == [InitCall]
    ensures fresh(ctx) && fresh(ctx.latch)
    ensures fresh(w1.dbReadClient) && fresh(w1.clusterJClient) && fresh(w2.dbReadClient) && fresh(w2.clusterJClient)
  {
    ctx := new RunContext();
    var config := Config(Some(2), "grpc", 2, "field");
    assert EqualsIgnoreCase("grpc", GRPC);
    ClientKindExact("grpc", Grpc);

    w1 := new RonDBClient(ctx);
    var o1 := w1.Init(config, None, None);
    assert o1 == Pass;
    w2 := new RonDBClient(ctx);
    var o2 := w2.Init(config, None, None);
    assert o2 == Pass;
  }

  /**
   * Of two such workers, the first to clean up stays parked, its backends
   * untouched, until the second has counted down; both are then released
   * with their reader and writer each cleaned once.
   */
  method TwoWorkerRun() returns (ids: seq<int>, first: Release, second: Release, resumed: Release,
                                 parkedReaderCalls: seq<Call>, parkedWriterCalls: seq<Call>,
                                 readerCalls: seq<Call>, writerCalls: seq<Call>,
                                 reader2Calls: seq<Call>, writer2Calls: seq<Call>)
    ensures ids == [0, 1]
    ensures first == Parked && second == Released(Pass) && resumed == Released(Pass)
    ensures parkedReaderCalls == [InitCall] && parkedWriterCalls == [InitCall]
    ensures readerCalls == [InitCall, CleanupCall] && writerCalls == [InitCall, CleanupCall]
    ensures reader2Calls == [InitCall, CleanupCall] && writer2Calls == [InitCall, CleanupCall]
  {
    var ctx, w1, w2 := StartTwoWorkers();
    ids := [w1.threadID, w2.threadID];
    var reader, writer := w1.dbReadClient, w1.clusterJClient;
    var reader2, writer2 := w2.dbReadClient, w2.clusterJClient;

    first := w1.Cleanup(false, None, None);
    parkedReaderCalls, parkedWriterCalls := reader.calls, writer.calls;
    assert ctx.latch.count == 1;
    second := w2.Cleanup(false, None, None);
    assert reader.calls == [InitCall] && writer.calls == [InitCall] && ctx.latch.count == 0;
    resumed := w1.AwaitAndClean(false, None, None);
    readerCalls, writerCalls := reader.calls, writer.calls;
    reader2Calls, writer2Calls := reader2.calls, writer2.calls;
  }
}
