// The pieces put together: from the opened nodes to the readers, and from the dispatched events to the
// client at the far end of the control socket.
module EndToEnd {
  import opened Common
  import opened KeyMapper
  import opened DeviceMatching
  import opened EventPipeline
  import opened PipelineProperties
  import opened PipelineObservers
  import opened Dispatching
  import opened PipelineReaders
  import opened Framing
  import opened Descriptors
  import opened DescriptorProperties

  /** DeviceManager::start: one active reader per entry. */
  function ReadersOf(entries: seq<Entry>, hwName: string -> string): (readers: seq<Reader>)
    ensures |readers| == |entries|
    ensures forall r :: 0 <= r < |entries| ==>
      readers[r] == Reader(entries[r].cfg.id, entries[r].path, hwName(entries[r].path), true, Checking)
  {
    seq(|entries|, r requires 0 <= r < |entries| =>
      Reader(entries[r].cfg.id, entries[r].path, hwName(entries[r].path), true, Checking))
  }

  /** Whatever the nodes and the configuration, the readers started are fit to begin a run. */
  lemma OpenedReadersMayStart(cands: seq<Candidate>, cfgs: seq<DeviceConfig>, a: Assignment,
                              hwName: string -> string, s: State)
    requires IsStable(cands, cfgs, a)
    requires forall k, l :: 0 <= k < l < |cands| ==> cands[k].path != cands[l].path
    requires s.readers == ReadersOf(EntriesOf(cands, cfgs, a), hwName)
    requires s.mux == AtCheck && s.queue == [] && !s.aborted && s.observers == [] && s.nextId == 0
    requires s.log == Log([], [], [], [], [], []) && CodesKnown(s.table, s.names)
    ensures Initial(s)
  {
    EntryPathsDistinct(cands, cfgs, a);
  }

  /** The theorems about runs, read off the objects that the multiplexer's own loop has been changing. */
  lemma TheLoopObeysThem(mux: EventMultiplexer, r: nat, id: int)
    requires mux.Valid() && Initial(mux.start) && r < |mux.start.readers|
    ensures mux.log.executed + ToExecute(mux.pc) == Due(mux.start, mux.acts)
    ensures Flatten(mux.mapper.table)
      == FlatAfter(mux.mapper.names, Flatten(mux.start.table), mux.start.disk, mux.acts)
    ensures mux.log.pushed == Events(mux.log.dispatched) + Hand(mux.pc) + mux.queue.q
    ensures r < |mux.readers| && Balanced(mux.log.read, mux.log.pushed, mux.readers[r])
    ensures Told(mux.log.calls, id) + Told(ToCall(mux.pc), id) == Owed(mux.start, mux.acts, id)
    ensures Project(mux.log.read, mux.start.readers[r].path)
      == KeyEvents(mux.start.readers[r].id, mux.start.readers[r].path, ResultsOf(mux.acts, r))
  {
    CommandTrace(mux.start, mux.acts);
    TableRefinesFlatMap(mux.start, mux.acts);
    ReachableInv(mux.start, mux.acts);
    assert ReaderInv(mux.Now(), r);
    EachObserverToldOnce(mux.start, mux.acts, id);
    ReadsAreResults(mux.start, mux.acts, r);
  }

  lemma {:induction false} PressMessagesAppend(names: NameTable, xs: seq<Dispatch>, ys: seq<Dispatch>)
    ensures PressMessages(names, xs + ys) == PressMessages(names, xs) + PressMessages(names, ys)
  {
    if ys == [] {
      assert xs + ys == xs;
    } else {
      PressMessagesAppend(names, xs, ys[..|ys| - 1]);
      assert (xs + ys)[..|xs + ys| - 1] == xs + ys[..|ys| - 1];
    }
  }

  lemma PressMessagesPrefix(names: NameTable, xs: seq<Dispatch>, ys: seq<Dispatch>)
    requires xs <= ys
    ensures PressMessages(names, xs) <= PressMessages(names, ys)
  {
    PressMessagesAppend(names, xs, ys[|xs|..]);
    assert xs + ys[|xs|..] == ys;
  }

  /** Over every interleaving, every pattern of short and failing writes and every cutting into reads, an
      event-stream client, on a connection to which no other's call went astray, is handed presses it is owed, from
      the first on, in order, none twice and none skipped; all that its observer was told of, if everything written
      has arrived, the connection is open and no write to it has failed. */
  lemma ClientIsHandedWhatItIsOwed(codec: Codec, s: State, xs: seq<Wired>, id: int, received: string)
    requires Initial(s) && WireFeasible(Unwired(codec, s), xs) && IsCodec(codec)
    requires 0 <= id < |WireExec(Unwired(codec, s), xs).homes|
    requires var h := WireExec(Unwired(codec, s), xs).homes[id];
      !Strayed(Unwired(codec, s), xs, h.conn) && received <= StreamOf(WireExec(Unwired(codec, s), xs), h)
    ensures var w0, w := Unwired(codec, s), WireExec(Unwired(codec, s), xs);
      var handed := Decoded(codec, SplitLines(received).lines);
      && Feasible(s, ActionsOf(w0, xs))
      && handed <= PressMessages(s.names, Owed(s, ActionsOf(w0, xs), id))
      && (received == StreamOf(w, w.homes[id]) && IsOpen(w, w.homes[id].conn) && id !in w.latched ==>
            handed == ToldPresses(w, id))
  {
    var w0, w := Unwired(codec, s), WireExec(Unwired(codec, s), xs);
    var h := w.homes[id];
    WiresAreARun(w0, xs);
    WiresStaySane(codec, s, xs);
    OwnStreamIsFramed(codec, s, xs);
    assert Streams(w, id);
    BytesAreOwnIff(codec, s, xs, h.conn);
    ClientSeesPrefix(codec, StreamOf(w, h), ToldPresses(w, id), h.whole, GaveUp(w, id), received);
    TableRefinesFlatMap(s, ActionsOf(w0, xs));
    EachObserverToldOnce(s, ActionsOf(w0, xs), id);
    PressMessagesPrefix(s.names, Told(w.s.log.calls, id), Owed(s, ActionsOf(w0, xs), id));
  }

  /** What the connection was written after its observer was registered. */
  function StreamOf(w: Wires, h: Home): string {
    if h.conn < |w.conns| && |h.base| <= |w.conns[h.conn].bytes| then w.conns[h.conn].bytes[|h.base|..] else ""
  }
}
