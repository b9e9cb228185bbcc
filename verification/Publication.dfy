/** How the chain's events get into a history: each landed transaction's log is the printed tree of
    its calls, and the program's own data lines decode to the events it emitted. */
module Publication {
  import opened Rust
  import opened Protocol
  import opened LogExtraction
  import opened Crawl
  import opened Projection
  import opened Storage
  import opened Ingestion
  import opened IngestionRuns
  import opened IngestionProgress
  import opened EndToEnd
  import Chain
  import Inv = Invariants

  function DecodedEvents(payloads: seq<(nat, string)>, decode: string -> Decoded): seq<Event> {
    if payloads == [] then []
    else
      var rest := DecodedEvents(payloads[..|payloads| - 1], decode);
      match decode(payloads[|payloads| - 1].1)
      case Decoded(event) => rest + [event]
      case _ => rest
  }

  /** The events that the calls of one transaction emit. */
  function Emits(calls: seq<Frame>, cfg: Config): seq<Event> {
    DecodedEvents(CallPayloads(calls, cfg.target, 0), cfg.decode)
  }

  /** The events that the landed transactions of a history emit. */
  function EmittedBy(h: seq<Tx>, printed: seq<seq<Frame>>, cfg: Config): seq<Event>
    requires |printed| == |h|
  {
    if h == [] then []
    else
      var last := |h| - 1;
      EmittedBy(h[..last], printed[..last], cfg) + if Landed(h[last], cfg) then Emits(printed[last], cfg) else []
  }

  /** The log of every landed transaction is the printed tree of its calls, and the node can serve
      those that emit. */
  ghost predicate Prints(h: seq<Tx>, printed: seq<seq<Frame>>, cfg: Config) {
    && |printed| == |h|
    && forall i :: 0 <= i < |h| && Landed(h[i], cfg) ==>
         && h[i].logs == PrintCalls(printed[i])
         && (forall f :: f in printed[i] ==> Printable(f))
         && (Emits(printed[i], cfg) != [] ==> Ingestible(h[i], cfg))
  }

  lemma {:induction false} ObservedEvents(
    signature: Signature, slot: i64, payloads: seq<(nat, string)>, decode: string -> Decoded)
    ensures EventsIn(Observe(signature, slot, None, payloads, decode)) == DecodedEvents(payloads, decode)
  {
    if payloads != [] {
      ObservedEvents(signature, slot, payloads[..|payloads| - 1], decode);
    }
  }

  /** Reading a printed log observes exactly the payloads that the program's own frames emitted. */
  lemma PrintedObservations(tx: Tx, calls: seq<Frame>, cfg: Config)
    requires tx.logs == PrintCalls(calls) && forall f :: f in calls ==> Printable(f)
    requires tx.slot <= I64_MAX
    ensures EventsOf(tx, cfg) == Observe(tx.signature, tx.slot, None, CallPayloads(calls, cfg.target, 0), cfg.decode)
  {
    hide Printable, PrintCalls, CallPayloads, Scan;
    ExtractionInvertsPrinting(calls, cfg.target, 0);
  }

  /** Reading a printed log gives back the events that were emitted. */
  lemma PrintedEvents(tx: Tx, calls: seq<Frame>, cfg: Config)
    requires tx.logs == PrintCalls(calls) && forall f :: f in calls ==> Printable(f)
    requires Emits(calls, cfg) != [] ==> tx.slot <= I64_MAX
    ensures EventsIn(EventsOf(tx, cfg)) == Emits(calls, cfg)
  {
    hide Printable, PrintCalls, CallPayloads, Scan;
    if tx.slot <= I64_MAX {
      PrintedObservations(tx, calls, cfg);
      ObservedEvents(tx.signature, tx.slot, CallPayloads(calls, cfg.target, 0), cfg.decode);
    }
  }

  lemma {:induction false} PrintedEmission(h: seq<Tx>, printed: seq<seq<Frame>>, cfg: Config)
    requires Prints(h, printed, cfg)
    ensures EventsIn(Emission(h, cfg)) == EmittedBy(h, printed, cfg) && Servable(h, cfg)
  {
    hide EventsOf, Emits, Printable, PrintCalls, Ingestible;
    if h != [] {
      var last := |h| - 1;
      PrintedEmission(h[..last], printed[..last], cfg);
      if Landed(h[last], cfg) {
        SlotFits(h[last], cfg);
        PrintedEvents(h[last], printed[last], cfg);
      }
      var before, events := Emission(h[..last], cfg), LandedEvents(h[last], cfg);
      assert EventsIn(before + events) == EventsIn(before) + EventsIn(events);
      assert forall i :: 0 <= i < last ==> h[..last][i] == h[i];
      assert EventsIn(events) == [] <==> events == [];
    }
  }

  lemma SlotFits(tx: Tx, cfg: Config)
    ensures Ingestible(tx, cfg) ==> tx.slot <= I64_MAX
  {
  }

  /** A history whose landed logs print the chain's events publishes the chain. */
  lemma PrintedHistoryPublishes(h: seq<Tx>, printed: seq<seq<Frame>>, cfg: Config, log: seq<Event>)
    requires Prints(h, printed, cfg) && EmittedBy(h, printed, cfg) == Stored(log)
    ensures Publishes(h, cfg, log)
  {
    hide Prints, EmittedBy, Stored, Emission, Servable;
    PrintedEmission(h, printed, cfg);
  }

  /** From the program's own print-outs to the index: the table of an indexer that has caught up with
      the logs is the image of the run that wrote them. */
  lemma PrintedRunIsMirrored(
    tokens: map<Chain.TokenKey, u64>, cs: seq<Chain.Command>, steps: seq<Step>, cfg: Config,
    printed: seq<seq<Frame>>, id: PosId)
    requires Inv.Supply(tokens) <= U64_MAX && NeverSkips(FRESH, steps, cfg)
    requires Prints(RunSteps(FRESH, steps, cfg).history, printed, cfg)
    requires EmittedBy(RunSteps(FRESH, steps, cfg).history, printed, cfg)
          == Stored(Chain.Run(Chain.Initial(tokens), cs).log)
    requires RunSteps(FRESH, steps, cfg).start == Some(0) && CaughtUp(RunSteps(FRESH, steps, cfg))
    ensures Mirrors(Chain.Run(Chain.Initial(tokens), cs), RunSteps(FRESH, steps, cfg).db.positions, id)
  {
    hide RunSteps, Chain.Run, NeverSkips, Inv.Supply, Prints, EmittedBy, Stored, Publishes, Mirrors, CaughtUp;
    PrintedHistoryPublishes(RunSteps(FRESH, steps, cfg).history, printed, cfg,
                            Chain.Run(Chain.Initial(tokens), cs).log);
    PipelineMirrorsChain(tokens, cs, steps, cfg, id);
  }
}
