/**
  Ingesting documents announced in the outbox: read, cut into chunks, record each chunk, mark indexed.

  A chunk is recorded in a transaction of its own and stays recorded when the pass aborts; document
  and event changes appear when the pass commits.  What a download yields, how many records the
  memory store accepts before it raises, and whether the commit succeeds are parameters.
 */
module Ingestion {
  import opened Common
  import opened Batches
  import opened Chunks

  type EventId = nat
  type DocId = nat

  datatype Settings = Settings(tokenizer: Tokenizer, size: nat, overlap: nat)

  /** The status "ingesting" is always overwritten before the commit, so no transaction ever shows it. */
  datatype Status = Queued | Indexed | Failed(error: string)

  datatype Document = Document(site: Option<string>, status: Status)

  /** `key` is None when it is no document identifier. */
  datatype Event = Event(topic: string, key: Option<DocId>, ingested: bool)

  datatype Passage = Passage(document: DocId, site: Option<string>, content: string)

  /** An extraction error is part of the protocol, any other error aborts the pass. */
  datatype Reading = Text(text: string) | Unreadable(error: string) | Unavailable

  type Source = DocId -> Reading

  datatype IngestError = PassAborted

  /** A pass under way; `room` is how many more records the memory store accepts. */
  datatype Session = Session(
    documents: map<DocId, Document>, events: map<EventId, Event>, memory: seq<Passage>,
    processed: nat, room: nat, raised: bool)

  datatype State = State(documents: map<DocId, Document>, events: map<EventId, Event>, memory: seq<Passage>)

  function Start(s: State, accepts: nat): Session {
    Session(s.documents, s.events, s.memory, 0, accepts, false)
  }

  function Pending(events: map<EventId, Event>, topic: string): set<EventId> {
    set e | e in events && events[e].topic == topic && !events[e].ingested
  }

  function IdOrder(events: map<EventId, Event>): map<EventId, int> {
    map e | e in events :: e
  }

  function ChunksOf(cfg: Settings, text: string): Result<seq<string>, RangeError> {
    Chunk(cfg.tokenizer, cfg.size, cfg.overlap, text)
  }

  function Passages(d: DocId, site: Option<string>, chunks: seq<string>): seq<Passage> {
    seq(|chunks|, i requires 0 <= i < |chunks| => Passage(d, site, chunks[i]))
  }

  /** The session after the document's record and the event are changed, and one more is counted. */
  function Finish(s: Session, e: EventId, d: DocId, status: Status): Session
    requires e in s.events && d in s.documents
  {
    s.(documents := s.documents[d := s.documents[d].(status := status)],
       events := s.events[e := s.events[e].(ingested := true)],
       processed := s.processed + 1)
  }

  function IngestText(cfg: Settings, s: Session, e: EventId, d: DocId, text: string): Session
    requires e in s.events && d in s.documents
  {
    var chunks := ChunksOf(cfg, text);
    if chunks.Err? then s.(raised := true)
    else
      var stored := Passages(d, s.documents[d].site, chunks.value[..Min(|chunks.value|, s.room)]);
      var t := s.(memory := s.memory + stored, room := s.room - |stored|);
      if |chunks.value| > s.room then t.(raised := true) else Finish(t, e, d, Indexed)
  }

  /** One event of the batch. */
  function IngestEvent(cfg: Settings, source: Source, s: Session, e: EventId): Session
    requires e in s.events
  {
    if s.raised then s
    else if s.events[e].key.None? then s.(raised := true)
    else
      var d := s.events[e].key.value;
      if d !in s.documents then s.(events := s.events[e := s.events[e].(ingested := true)])
      else match source(d)
        case Unavailable => s.(raised := true)
        case Unreadable(error) => Finish(s, e, d, Failed(error))
        case Text(text) => IngestText(cfg, s, e, d, text)
  }

  function IngestAll(cfg: Settings, source: Source, s: Session, batch: seq<EventId>): (t: Session)
    requires forall e | e in batch :: e in s.events
    ensures t.events.Keys == s.events.Keys
  {
    if batch == [] then s
    else IngestEvent(cfg, source, IngestAll(cfg, source, s, batch[..|batch| - 1]), batch[|batch| - 1])
  }

  lemma {:induction false} RaisedStays(cfg: Settings, source: Source, s: Session, batch: seq<EventId>, n: nat)
    requires (forall e | e in batch :: e in s.events) && n <= |batch|
    requires IngestAll(cfg, source, s, batch[..n]).raised
    ensures IngestAll(cfg, source, s, batch) == IngestAll(cfg, source, s, batch[..n])
    decreases |batch|
  {
    if n == |batch| {
      assert batch[..n] == batch;
    } else {
      assert batch[..|batch| - 1][..n] == batch[..n];
      RaisedStays(cfg, source, s, batch[..|batch| - 1], n);
    }
  }

  // ---------------------------------------------------------------------------
  // The consumer
  // ---------------------------------------------------------------------------

  class DocumentIngestionConsumer {
    var documents: map<DocId, Document>
    var events: map<EventId, Event>
    var memory: seq<Passage>
    const cfg: Settings
    const topic: string
    const batchSize: nat

    constructor (documents: map<DocId, Document>, events: map<EventId, Event>, cfg: Settings, topic: string, batchSize: nat)
      ensures this.documents == documents && this.events == events && memory == []
      ensures this.cfg == cfg && this.topic == topic && this.batchSize == batchSize
    {
      this.documents, this.events, this.memory := documents, events, [];
      this.cfg, this.topic, this.batchSize := cfg, topic, batchSize;
    }

    function Now(): State
      reads this
    {
      State(documents, events, memory)
    }

    /** Record a document's chunks one by one; the store may raise on the way. */
    method RecordChunks(d: DocId, site: Option<string>, chunks: seq<string>, room: nat) returns (left: nat, raised: bool)
      modifies this`memory
      ensures memory == old(memory) + Passages(d, site, chunks[..Min(|chunks|, room)])
      ensures raised <==> |chunks| > room
      ensures left == room - Min(|chunks|, room)
    {
      left := room;
      for i := 0 to |chunks|
        invariant i <= room && left == room - i
        invariant memory == old(memory) + Passages(d, site, chunks[..i])
      {
        if left == 0 {
          return 0, true;
        }
        memory := memory + [Passage(d, site, chunks[i])];
        left := left - 1;
      }
      raised := false;
    }

    /** The loop over the batch, against a session's documents and events. */
    method IngestBatch(batch: seq<EventId>, source: Source, accepts: nat)
      returns (docs: map<DocId, Document>, evs: map<EventId, Event>, processed: nat, raised: bool)
      requires forall e | e in batch :: e in events
      modifies this`memory
      ensures var t := IngestAll(cfg, source, Start(old(Now()), accepts), batch);
              && memory == t.memory && raised == t.raised
              && (!raised ==> docs == t.documents && evs == t.events && processed == t.processed)
    {
      ghost var start := Start(Now(), accepts);
      var room := accepts;
      docs, evs, processed := documents, events, 0;
      for i := 0 to |batch|
        invariant Session(docs, evs, memory, processed, room, false) == IngestAll(cfg, source, start, batch[..i])
      {
        assert batch[..i + 1][..i] == batch[..i];
        docs, evs, processed, room, raised := Handle(batch[i], docs, evs, processed, room, source);
        if raised {
          RaisedStays(cfg, source, start, batch, i + 1);
          return;
        }
      }
      assert batch[..|batch|] == batch;
      raised := false;
    }

    /** One pass over a batch of announcements. */
    method IngestOnce(locked: set<EventId>, source: Source, accepts: nat, commits: bool)
      returns (result: Result<nat, IngestError>, ghost batch: seq<EventId>)
      modifies this
      ensures IsBatch(batch, Pending(old(events), topic) - locked, IdOrder(old(events)), batchSize)
      ensures TakesFirstPending(old(events), batch, topic, locked, batchSize)
      ensures Enabled(old(Now()), Pass(batch, source, accepts, commits))
      ensures Now() == Apply(cfg, old(Now()), Pass(batch, source, accepts, commits))
      ensures var t := IngestAll(cfg, source, Start(old(Now()), accepts), batch);
              result == if t.raised || !commits then Err(PassAborted) else Ok(t.processed)
    {
      var fetched := Fetch(Pending(events, topic) - locked, IdOrder(events), batchSize);
      batch := fetched;
      PendingByFields(events, batch, topic, locked, batchSize);
      assert forall e | e in batch :: e in Elements(batch);
      var docs, evs, processed, raised := IngestBatch(fetched, source, accepts);
      if raised {
        return Err(PassAborted), batch;
      }
      if !commits {
        return Err(PassAborted), batch;
      }
      documents, events := docs, evs;
      return Ok(processed), batch;
    }

    /** The loop body: one event against the session's documents and events. */
    method Handle(e: EventId, docs0: map<DocId, Document>, evs0: map<EventId, Event>, processed0: nat, room0: nat, source: Source)
      returns (docs: map<DocId, Document>, evs: map<EventId, Event>, processed: nat, room: nat, raised: bool)
      requires e in evs0
      modifies this`memory
      ensures Session(docs, evs, memory, processed, room, raised)
              == IngestEvent(cfg, source, Session(docs0, evs0, old(memory), processed0, room0, false), e)
    {
      docs, evs, processed, room, raised := docs0, evs0, processed0, room0, false;
      if evs[e].key.None? {
        raised := true;
        return;
      }
      var d := evs[e].key.value;
      if d !in docs {
        evs := evs[e := evs[e].(ingested := true)];
        return;
      }
      var reading := source(d);
      if reading.Unavailable? {
        raised := true;
        return;
      }
      if reading.Unreadable? {
        docs := docs[d := docs[d].(status := Failed(reading.error))];
      } else {
        var chunks := ChunksOf(cfg, reading.text);
        if chunks.Err? {
          raised := true;
          return;
        }
        room, raised := RecordChunks(d, docs[d].site, chunks.value, room);
        if raised {
          return;
        }
        docs := docs[d := docs[d].(status := Indexed)];
      }
      evs := evs[e := evs[e].(ingested := true)];
      processed := processed + 1;
    }
  }

  /** The topic's announcements with the smallest identifiers that are neither ingested nor locked, and all of them when they fit. */
  ghost predicate TakesFirstPending(events: map<EventId, Event>, batch: seq<EventId>, topic: string, locked: set<EventId>, batchSize: nat) {
    && |batch| <= batchSize
    && (forall i, j | 0 <= i < j < |batch| :: batch[i] < batch[j])
    && (forall e | e in batch :: e in events && events[e].topic == topic && !events[e].ingested && e !in locked)
    && (forall x | x in events && x !in batch && events[x].topic == topic && !events[x].ingested && x !in locked ::
          |batch| == batchSize && forall e | e in batch :: e < x)
  }

  lemma PendingByFields(events: map<EventId, Event>, batch: seq<EventId>, topic: string, locked: set<EventId>, batchSize: nat)
    requires IsBatch(batch, Pending(events, topic) - locked, IdOrder(events), batchSize)
    ensures TakesFirstPending(events, batch, topic, locked, batchSize)
  {
    var pending := Pending(events, topic) - locked;
    forall e | e in batch ensures e in pending {
      assert e in Elements(batch);
    }
    forall i, j | 0 <= i < j < |batch| ensures batch[i] < batch[j] {
      assert IdOrder(events)[batch[i]] <= IdOrder(events)[batch[j]];
    }
    forall x | x in pending && x !in batch ensures |batch| == batchSize && forall e | e in batch :: e < x {
      LeftOutOfFull(batch, pending, IdOrder(events), batchSize, x);
    }
  }

  // ---------------------------------------------------------------------------
  // What every pass keeps
  // ---------------------------------------------------------------------------

  /** The stored text of a document does not change between downloads. */
  ghost predicate Reads(source: Source, texts: DocId -> string) {
    forall d :: source(d).Text? ==> source(d).text == texts(d)
  }

  /** An indexed document has each of its non-blank windows recorded, under the document's site. */
  ghost predicate IndexedIsRecorded(cfg: Settings, texts: DocId -> string, documents: map<DocId, Document>, memory: seq<Passage>) {
    forall d | d in documents && documents[d].status.Indexed? ::
      ChunksOf(cfg, texts(d)).Ok? &&
      forall chunk | chunk in ChunksOf(cfg, texts(d)).value :: Passage(d, documents[d].site, chunk) in memory
  }

  /** Nothing is recorded that is not a chunk of a known document. */
  ghost predicate RecordedIsChunk(cfg: Settings, texts: DocId -> string, documents: map<DocId, Document>, memory: seq<Passage>) {
    forall p | p in memory ::
      p.document in documents && p.site == documents[p.document].site &&
      ChunksOf(cfg, texts(p.document)).Ok? && p.content in ChunksOf(cfg, texts(p.document)).value
  }

  lemma PassagesAre(d: DocId, site: Option<string>, chunks: seq<string>, p: Passage)
    ensures p in Passages(d, site, chunks) <==> p.document == d && p.site == site && p.content in chunks
  {
    if p.document == d && p.site == site && p.content in chunks {
      var i :| 0 <= i < |chunks| && chunks[i] == p.content;
      assert Passages(d, site, chunks)[i] == p;
    }
  }

  lemma EventKeepsBooks(cfg: Settings, source: Source, texts: DocId -> string, s: Session, e: EventId)
    requires e in s.events && Reads(source, texts)
    requires IndexedIsRecorded(cfg, texts, s.documents, s.memory) && RecordedIsChunk(cfg, texts, s.documents, s.memory)
    ensures var t := IngestEvent(cfg, source, s, e);
            && IndexedIsRecorded(cfg, texts, t.documents, t.memory)
            && RecordedIsChunk(cfg, texts, t.documents, t.memory)
            && s.memory <= t.memory
            && t.documents.Keys == s.documents.Keys
            && forall d | d in s.documents :: t.documents[d].site == s.documents[d].site
  {
    var t := IngestEvent(cfg, source, s, e);
    if !s.raised && s.events[e].key.Some? && s.events[e].key.value in s.documents {
      var d := s.events[e].key.value;
      if source(d).Text? && ChunksOf(cfg, texts(d)).Ok? {
        var chunks := ChunksOf(cfg, texts(d)).value;
        var stored := chunks[..Min(|chunks|, s.room)];
        forall p: Passage ensures p in t.memory <==> p in s.memory || (p.document == d && p.site == s.documents[d].site && p.content in stored) {
          PassagesAre(d, s.documents[d].site, stored, p);
        }
        assert |chunks| <= s.room ==> stored == chunks;
      }
    }
  }

  lemma {:induction false} BatchKeepsBooks(cfg: Settings, source: Source, texts: DocId -> string, s: Session, batch: seq<EventId>)
    requires (forall e | e in batch :: e in s.events) && Reads(source, texts)
    requires IndexedIsRecorded(cfg, texts, s.documents, s.memory) && RecordedIsChunk(cfg, texts, s.documents, s.memory)
    ensures var t := IngestAll(cfg, source, s, batch);
            && IndexedIsRecorded(cfg, texts, t.documents, t.memory)
            && RecordedIsChunk(cfg, texts, t.documents, t.memory)
            && s.memory <= t.memory
            && t.documents.Keys == s.documents.Keys
            && forall d | d in s.documents :: t.documents[d].site == s.documents[d].site
    decreases |batch|
  {
    if batch != [] {
      var front := batch[..|batch| - 1];
      BatchKeepsBooks(cfg, source, texts, s, front);
      EventKeepsBooks(cfg, source, texts, IngestAll(cfg, source, s, front), batch[|batch| - 1]);
    }
  }

  // ---------------------------------------------------------------------------
  // Runs
  // ---------------------------------------------------------------------------

  datatype Step =
    | Upload(d: DocId, site: Option<string>, e: EventId, topic: string)
    | Pass(batch: seq<EventId>, source: Source, accepts: nat, commits: bool)

  predicate Enabled(s: State, step: Step) {
    match step
    case Upload(d, _, e, _) => d !in s.documents && e !in s.events
    case Pass(batch, _, _, _) => forall e | e in batch :: e in s.events
  }

  function Apply(cfg: Settings, s: State, step: Step): State
    requires Enabled(s, step)
  {
    match step
    case Upload(d, site, e, topic) =>
      s.(documents := s.documents[d := Document(site, Queued)], events := s.events[e := Event(topic, Some(d), false)])
    case Pass(batch, source, accepts, commits) =>
      var t := IngestAll(cfg, source, Start(s, accepts), batch);
      if t.raised || !commits then s.(memory := t.memory) else State(t.documents, t.events, t.memory)
  }

  predicate CanRun(cfg: Settings, s: State, steps: seq<Step>)
    decreases |steps|
  {
    steps == [] || (Enabled(s, steps[0]) && CanRun(cfg, Apply(cfg, s, steps[0]), steps[1..]))
  }

  function Run(cfg: Settings, s: State, steps: seq<Step>): State
    requires CanRun(cfg, s, steps)
    decreases |steps|
  {
    if steps == [] then s else Run(cfg, Apply(cfg, s, steps[0]), steps[1..])
  }

  ghost predicate BooksHold(cfg: Settings, texts: DocId -> string, s: State) {
    IndexedIsRecorded(cfg, texts, s.documents, s.memory) && RecordedIsChunk(cfg, texts, s.documents, s.memory)
  }

  lemma StepKeepsBooks(cfg: Settings, texts: DocId -> string, s: State, step: Step)
    requires Enabled(s, step) && BooksHold(cfg, texts, s) && (step.Pass? ==> Reads(step.source, texts))
    ensures BooksHold(cfg, texts, Apply(cfg, s, step)) && s.memory <= Apply(cfg, s, step).memory
  {
    if step.Pass? {
      var start := Start(s, step.accepts);
      BatchKeepsBooks(cfg, step.source, texts, start, step.batch);
      var t := IngestAll(cfg, step.source, start, step.batch);
      assert forall p | p in s.memory :: p in t.memory;
    }
  }

  /**
    Over every run of uploads and passes, with downloads failing, the memory store raising half way
    and commits aborting: an indexed document has all its chunks recorded, and only chunks are recorded.
   */
  lemma {:induction false} RunKeepsBooks(cfg: Settings, texts: DocId -> string, s: State, steps: seq<Step>)
    requires CanRun(cfg, s, steps) && BooksHold(cfg, texts, s)
    requires forall step | step in steps :: step.Pass? ==> Reads(step.source, texts)
    ensures BooksHold(cfg, texts, Run(cfg, s, steps))
    ensures s.memory <= Run(cfg, s, steps).memory
    decreases |steps|
  {
    if steps != [] {
      assert steps[0] in steps;
      StepKeepsBooks(cfg, texts, s, steps[0]);
      RunKeepsBooks(cfg, texts, Apply(cfg, s, steps[0]), steps[1..]);
    }
  }

  /**
    The same from the start, in terms of the settings: every window of an indexed document whose text
    is not blank is recorded under the document's site, and whatever is recorded is such a window.
   */
  lemma IndexedMeansEveryWindow(cfg: Settings, texts: DocId -> string, steps: seq<Step>)
    requires CanRun(cfg, State(map[], map[], []), steps) && cfg.overlap < cfg.size
    requires forall step | step in steps :: step.Pass? ==> Reads(step.source, texts)
    ensures var t := Run(cfg, State(map[], map[], []), steps);
            && (forall d, k: nat, chunk | d in t.documents && t.documents[d].status.Indexed? && WindowOf(cfg, texts(d), k, chunk) ::
                  Passage(d, t.documents[d].site, chunk) in t.memory)
            && (forall p | p in t.memory ::
                  && p.document in t.documents && p.site == t.documents[p.document].site
                  && exists k: nat :: WindowOf(cfg, texts(p.document), k, p.content))
  {
    RunKeepsBooks(cfg, texts, State(map[], map[], []), steps);
    var t := Run(cfg, State(map[], map[], []), steps);
    forall d, k: nat, chunk | d in t.documents && t.documents[d].status.Indexed? && WindowOf(cfg, texts(d), k, chunk)
      ensures Passage(d, t.documents[d].site, chunk) in t.memory
    {
      WindowIsChunk(cfg, texts(d), chunk);
    }
    forall p | p in t.memory ensures exists k: nat :: WindowOf(cfg, texts(p.document), k, p.content) {
      WindowIsChunk(cfg, texts(p.document), p.content);
    }
  }

  /** The text of the window after k steps of size minus overlap, when it is not blank. */
  predicate WindowOf(cfg: Settings, text: string, k: nat, chunk: string)
    requires cfg.overlap < cfg.size
  {
    chunk != "" && IsWindow(cfg.tokenizer, cfg.tokenizer.encode(text), cfg.size, cfg.overlap, k, chunk)
  }

  lemma WindowIsChunk(cfg: Settings, text: string, chunk: string)
    requires cfg.overlap < cfg.size
    ensures ChunksOf(cfg, text).Ok?
    ensures chunk in ChunksOf(cfg, text).value <==> exists k: nat :: WindowOf(cfg, text, k, chunk)
  {
    ChunkingIsExact(cfg.tokenizer, cfg.size, cfg.overlap, text);
    if chunk in ChunksOf(cfg, text).value {
      var k: nat :| IsWindow(cfg.tokenizer, cfg.tokenizer.encode(text), cfg.size, cfg.overlap, k, chunk);
      assert WindowOf(cfg, text, k, chunk);
    }
  }

  // ---------------------------------------------------------------------------
  // What a pass achieves
  // ---------------------------------------------------------------------------

  predicate Known(s: Session, e: EventId)
    requires e in s.events
  {
    s.events[e].key.Some? && s.events[e].key.value in s.documents
  }

  /** Handling the event need not abort the pass. */
  predicate Readable(cfg: Settings, source: Source, s: Session, e: EventId)
    requires e in s.events
  {
    && s.events[e].key.Some?
    && (Known(s, e) ==>
          var reading := source(s.events[e].key.value);
          !reading.Unavailable? && (reading.Text? ==> ChunksOf(cfg, reading.text).Ok?))
  }

  /** Records the event asks of the memory store. */
  function Demand(cfg: Settings, source: Source, s: Session, e: EventId): nat
    requires e in s.events
  {
    if Known(s, e) && Readable(cfg, source, s, e) && source(s.events[e].key.value).Text?
    then |ChunksOf(cfg, source(s.events[e].key.value).text).value| else 0
  }

  function TotalDemand(cfg: Settings, source: Source, s: Session, batch: seq<EventId>): nat
    requires forall e | e in batch :: e in s.events
  {
    if batch == [] then 0
    else TotalDemand(cfg, source, s, batch[..|batch| - 1]) + Demand(cfg, source, s, batch[|batch| - 1])
  }

  function KnownCount(s: Session, batch: seq<EventId>): nat
    requires forall e | e in batch :: e in s.events
  {
    if batch == [] then 0
    else KnownCount(s, batch[..|batch| - 1]) + if Known(s, batch[|batch| - 1]) then 1 else 0
  }

  /** Same events but for their marks, same documents but for their statuses. */
  ghost predicate SameNames(s: Session, t: Session) {
    && s.events.Keys == t.events.Keys && s.documents.Keys == t.documents.Keys
    && forall e | e in s.events :: t.events[e].key == s.events[e].key && t.events[e].topic == s.events[e].topic
  }

  lemma EventSettles(cfg: Settings, source: Source, s0: Session, s: Session, e: EventId)
    requires e in s.events && SameNames(s0, s) && !s.raised
    ensures var t := IngestEvent(cfg, source, s, e);
            && SameNames(s0, t)
            && (!t.raised <==> Readable(cfg, source, s0, e) && Demand(cfg, source, s0, e) <= s.room)
            && (!t.raised ==>
                  && t.events == s.events[e := s.events[e].(ingested := true)]
                  && t.processed == s.processed + (if Known(s0, e) then 1 else 0)
                  && t.room == s.room - Demand(cfg, source, s0, e))
  {
  }

  /**
    A pass goes through exactly when every announcement can be handled and the memory store accepts
    all the chunks.  It then marks its own announcements and no others, and counts those whose
    document exists.
   */
  lemma {:induction false} BatchSettles(cfg: Settings, source: Source, s: Session, batch: seq<EventId>)
    requires (forall e | e in batch :: e in s.events) && !s.raised
    ensures var t := IngestAll(cfg, source, s, batch);
            && SameNames(s, t)
            && (!t.raised <==>
                  (forall e | e in batch :: Readable(cfg, source, s, e)) && TotalDemand(cfg, source, s, batch) <= s.room)
            && (!t.raised ==>
                  && t.processed == s.processed + KnownCount(s, batch)
                  && t.room == s.room - TotalDemand(cfg, source, s, batch)
                  && forall e | e in s.events ::
                       t.events[e] == if e in batch then s.events[e].(ingested := true) else s.events[e])
    decreases |batch|
  {
    if batch != [] {
      var front, last := batch[..|batch| - 1], batch[|batch| - 1];
      assert batch == front + [last];
      BatchSettles(cfg, source, s, front);
      var u := IngestAll(cfg, source, s, front);
      if !u.raised {
        EventSettles(cfg, source, s, u, last);
      }
    }
  }

  predicate Names(s: Session, batch: seq<EventId>, d: DocId)
    requires forall e | e in batch :: e in s.events
  {
    exists e | e in batch :: s.events[e].key == Some(d)
  }

  /** A pass that goes through leaves each announced document indexed or failed, and the others alone. */
  lemma {:induction false} DocumentsSettle(cfg: Settings, source: Source, s: Session, batch: seq<EventId>, d: DocId)
    requires (forall e | e in batch :: e in s.events) && d in s.documents && !s.raised
    requires !IngestAll(cfg, source, s, batch).raised
    ensures d in IngestAll(cfg, source, s, batch).documents
    ensures IngestAll(cfg, source, s, batch).documents[d].status ==
              if !Names(s, batch, d) then s.documents[d].status
              else if source(d).Unreadable? then Failed(source(d).error) else Indexed
    decreases |batch|
  {
    if batch != [] {
      var front, last := batch[..|batch| - 1], batch[|batch| - 1];
      assert batch == front + [last];
      BatchSettles(cfg, source, s, front);
      DocumentsSettle(cfg, source, s, front, d);
      EventSettlesDocument(cfg, source, IngestAll(cfg, source, s, front), last, d);
      NamesSnoc(s, front, last, d);
    }
  }

  /** An upload is picked up: it is pending, and a pass over it that goes through leaves its document settled, under its site. */
  lemma UploadSettles(cfg: Settings, s: State, d: DocId, site: Option<string>, e: EventId, topic: string,
                      source: Source, accepts: nat, batch: seq<EventId>)
    requires Enabled(s, Upload(d, site, e, topic))
    requires e in batch && forall x | x in batch :: x in Apply(cfg, s, Upload(d, site, e, topic)).events
    requires !IngestAll(cfg, source, Start(Apply(cfg, s, Upload(d, site, e, topic)), accepts), batch).raised
    ensures var u := Apply(cfg, s, Upload(d, site, e, topic));
            && e in Pending(u.events, topic)
            && var t := Apply(cfg, u, Pass(batch, source, accepts, true));
            && e in t.events && t.events[e].ingested && d in t.documents && t.documents[d].site == site
            && t.documents[d].status == if source(d).Unreadable? then Failed(source(d).error) else Indexed
  {
    var start := Start(Apply(cfg, s, Upload(d, site, e, topic)), accepts);
    BatchSettles(cfg, source, start, batch);
    DocumentsSettle(cfg, source, start, batch, d);
    SitesStay(cfg, source, start, batch);
    assert Names(start, batch, d) by {
      assert start.events[e].key == Some(d);
    }
  }

  /** Alone in its pass, an upload goes through exactly when its text can be read, cut and stored in full, or is reported unreadable. */
  lemma UploadGoesThrough(cfg: Settings, s: State, d: DocId, site: Option<string>, e: EventId, topic: string, source: Source, accepts: nat)
    requires Enabled(s, Upload(d, site, e, topic))
    ensures var start := Start(Apply(cfg, s, Upload(d, site, e, topic)), accepts);
            && e in start.events
            && (!IngestAll(cfg, source, start, [e]).raised <==>
                  || source(d).Unreadable?
                  || (source(d).Text? && ChunksOf(cfg, source(d).text).Ok? && |ChunksOf(cfg, source(d).text).value| <= accepts))
  {
    var start := Start(Apply(cfg, s, Upload(d, site, e, topic)), accepts);
    assert [e][..0] == [];
    assert IngestAll(cfg, source, start, []) == start;
    assert IngestAll(cfg, source, start, [e]) == IngestEvent(cfg, source, start, e);
  }

  lemma {:induction false} SitesStay(cfg: Settings, source: Source, s: Session, batch: seq<EventId>)
    requires forall e | e in batch :: e in s.events
    ensures var t := IngestAll(cfg, source, s, batch);
            s.documents.Keys == t.documents.Keys && forall d | d in s.documents :: t.documents[d].site == s.documents[d].site
    decreases |batch|
  {
    if batch != [] {
      SitesStay(cfg, source, s, batch[..|batch| - 1]);
    }
  }

  lemma EventSettlesDocument(cfg: Settings, source: Source, s: Session, e: EventId, d: DocId)
    requires e in s.events && d in s.documents && !s.raised && !IngestEvent(cfg, source, s, e).raised
    ensures var t := IngestEvent(cfg, source, s, e);
            d in t.documents && t.documents[d].status ==
              if s.events[e].key != Some(d) then s.documents[d].status
              else if source(d).Unreadable? then Failed(source(d).error) else Indexed
  {
  }

  lemma NamesSnoc(s: Session, batch: seq<EventId>, e: EventId, d: DocId)
    requires (forall f | f in batch :: f in s.events) && e in s.events
    ensures Names(s, batch + [e], d) <==> Names(s, batch, d) || s.events[e].key == Some(d)
  {
    assert e in batch + [e];
    assert forall f | f in batch :: f in batch + [e];
  }

  lemma LeastIsTaken(batch: seq<EventId>, eligible: set<EventId>, key: map<EventId, int>, limit: nat, e: EventId)
    requires eligible <= key.Keys && IsBatch(batch, eligible, key, limit) && limit >= 1
    requires (forall f | f in eligible :: key[f] == f) && e in eligible && forall f | f in eligible :: e <= f
    ensures e in batch
  {
    assert |eligible - {e}| == |eligible| - 1;
    var first := batch[0];
    assert first in Elements(batch);
  }

  /** An announcement that raises and comes first blocks its topic: no pass changes a document or an event. */
  lemma FirstFailureBlocks(cfg: Settings, s: State, topic: string, limit: nat, step: Step, e: EventId)
    requires step.Pass? && Enabled(s, step) && limit >= 1
    requires IsBatch(step.batch, Pending(s.events, topic), IdOrder(s.events), limit)
    requires e in Pending(s.events, topic) && forall f | f in Pending(s.events, topic) :: e <= f
    requires !Readable(cfg, step.source, Start(s, step.accepts), e)
    ensures var t := Apply(cfg, s, step); t.documents == s.documents && t.events == s.events
  {
    LeastIsTaken(step.batch, Pending(s.events, topic), IdOrder(s.events), limit, e);
    BatchSettles(cfg, step.source, Start(s, step.accepts), step.batch);
  }
}
