/** The inference handler: it owns at most one loaded engine and one
    session on it, (re)initialises them for a model, starts generations
    on the session and streams each partial result to the one subscribed
    token sink, and disposes of both.

    The inference library is outside the model: an engine or session is an
    opaque number, every call into the library that returns normally is
    recorded as an `Action` (a call that throws is not), and which library
    call throws is a parameter (a fault fires only if
    the call it names is actually made). */
module LlmInference {
  import opened Common
  import opened Paths
  import opened Catalog

  const DefaultMaxTokens := 8192
  const DefaultTopK := 40
  const DefaultAccelerator := "gpu"

  // ---------------------------------------------------------------------
  // Backend selection

  datatype Backend = Cpu | Gpu

  /** Lower-casing of one character (only letters A-Z change; no other
      character lower-cases to `c`, `p` or `u`). */
  function LowerChar(c: char): (lower: char)
    ensures !('A' <= lower <= 'Z')
    ensures lower != c ==> 'A' <= c <= 'Z' && 'a' <= lower <= 'z'
  {
    if 'A' <= c <= 'Z' then (c as int + 32) as char else c
  }

  function Lowercase(s: string): (lower: string)
    ensures |lower| == |s|
    ensures forall i :: 0 <= i < |s| ==> !('A' <= lower[i] <= 'Z')
  {
    seq(|s|, i requires 0 <= i < |s| => LowerChar(s[i]))
  }

  /** `when (accelerator.lowercase())`: "cpu" selects the CPU; "gpu" and
      every other string select the GPU. */
  function SelectBackend(accelerator: string): (backend: Backend)
    ensures accelerator == "cpu" || accelerator == "CPU" ==> backend == Cpu
    ensures |accelerator| != 3 ==> backend == Gpu
  {
    if Lowercase(accelerator) == "cpu" then Cpu else Gpu
  }

  /** The CPU is chosen for exactly the eight spellings of "cpu" that differ
      only in letter case. */
  lemma SelectBackendCpuExactly(accelerator: string)
    ensures SelectBackend(accelerator) == Cpu <==>
      |accelerator| == 3 && accelerator[0] in "cC" && accelerator[1] in "pP" && accelerator[2] in "uU"
  {
    var low := Lowercase(accelerator);
    if |accelerator| == 3 && accelerator[0] in "cC" && accelerator[1] in "pP" && accelerator[2] in "uU" {
      assert low[0] == 'c' && low[1] == 'p' && low[2] == 'u';
      assert low == "cpu";
    }
    if low == "cpu" {
      assert |accelerator| == 3;
      assert LowerChar(accelerator[0]) == low[0] == 'c';
      assert LowerChar(accelerator[1]) == low[1] == 'p';
      assert LowerChar(accelerator[2]) == low[2] == 'u';
      LowerCharOf(accelerator[0], 'c');
      LowerCharOf(accelerator[1], 'p');
      LowerCharOf(accelerator[2], 'u');
      assert "cC"[0] == 'c' && "cC"[1] == 'C';
      assert "pP"[0] == 'p' && "pP"[1] == 'P';
      assert "uU"[0] == 'u' && "uU"[1] == 'U';
    }
  }

  /** The characters that lower-case to a given small letter. */
  lemma LowerCharOf(c: char, small: char)
    requires 'a' <= small <= 'z'
    ensures LowerChar(c) == small <==> c == small || c as int == small as int - 32
  {
  }

  /** The default accelerator and unrecognised names select the GPU. */
  lemma SelectBackendFallsBackToGpu()
    ensures SelectBackend(DefaultAccelerator) == Gpu
    ensures SelectBackend("GPU") == Gpu
    ensures SelectBackend("npu") == Gpu
    ensures SelectBackend("") == Gpu
  {
    SelectBackendCpuExactly(DefaultAccelerator);
    SelectBackendCpuExactly("GPU");
    SelectBackendCpuExactly("npu");
    SelectBackendCpuExactly("");
  }

  // ---------------------------------------------------------------------
  // Token count: `text.split(" ").size`

  /** Kotlin's `split(" ")`: the pieces between single spaces, keeping
      empty pieces, including leading and trailing ones. */
  function SplitOnSpace(s: string): (pieces: seq<string>)
    ensures 1 <= |pieces| <= |s| + 1
  {
    if s == [] then [""]
    else
      var rest := SplitOnSpace(s[1..]);
      if s[0] == ' ' then [""] + rest
      else [[s[0]] + rest[0]] + rest[1..]
  }

  /** The pieces put back together with single spaces. */
  function JoinWithSpace(pieces: seq<string>): string
    requires |pieces| >= 1
  {
    if |pieces| == 1 then pieces[0]
    else pieces[0] + " " + JoinWithSpace(pieces[1..])
  }

  /** The token count attached to each event. */
  function TotalTokens(text: string): (n: int)
    ensures 1 <= n <= |text| + 1
  {
    |SplitOnSpace(text)|
  }

  /** The count is the number of space characters plus one, so at least 1. */
  lemma {:induction false} TotalTokensCountsSpaces(text: string)
    ensures TotalTokens(text) == multiset(text)[' '] + 1
  {
    if text != [] {
      TotalTokensCountsSpaces(text[1..]);
      assert text == [text[0]] + text[1..];
      assert multiset(text) == multiset([text[0]]) + multiset(text[1..]);
    }
  }

  /** Splitting loses nothing: joining the pieces gives the text back. */
  lemma {:induction false} SplitJoinRoundTrip(text: string)
    ensures JoinWithSpace(SplitOnSpace(text)) == text
  {
    if text != [] {
      var rest := SplitOnSpace(text[1..]);
      SplitJoinRoundTrip(text[1..]);
      if text[0] == ' ' {
        assert SplitOnSpace(text) == [""] + rest;
        assert ([""] + rest)[1..] == rest;
        assert text == " " + text[1..];
      } else {
        JoinPrependChar(text[0], rest);
        assert text == [text[0]] + text[1..];
      }
    }
  }

  /** Putting a character in front of the first piece puts it in front of
      the joined text. */
  lemma {:induction false} JoinPrependChar(c: char, pieces: seq<string>)
    requires |pieces| >= 1
    ensures JoinWithSpace([[c] + pieces[0]] + pieces[1..]) == [c] + JoinWithSpace(pieces)
  {
    var longer := [[c] + pieces[0]] + pieces[1..];
    assert longer[0] == [c] + pieces[0] && longer[1..] == pieces[1..];
    if |pieces| > 1 {
      var tail := JoinWithSpace(pieces[1..]);
      assert JoinWithSpace(longer) == ([c] + pieces[0]) + " " + tail;
      assert JoinWithSpace(pieces) == pieces[0] + " " + tail;
      assert ([c] + pieces[0]) + " " + tail == [c] + (pieces[0] + " " + tail);
    }
  }

  /** No piece contains a space. */
  lemma {:induction false} SplitPiecesHaveNoSpace(text: string)
    ensures forall k :: 0 <= k < |SplitOnSpace(text)| ==> ' ' !in SplitOnSpace(text)[k]
  {
    if text != [] {
      SplitPiecesHaveNoSpace(text[1..]);
      var rest := SplitOnSpace(text[1..]);
      var pieces := SplitOnSpace(text);
      if text[0] != ' ' {
        forall k | 0 <= k < |pieces| ensures ' ' !in pieces[k] {
          if k == 0 {
            assert pieces[0] == [text[0]] + rest[0];
          } else {
            assert pieces[k] == rest[k];
          }
        }
      } else {
        forall k | 0 <= k < |pieces| ensures ' ' !in pieces[k] {
          if k > 0 {
            assert pieces[k] == rest[k - 1];
          }
        }
      }
    }
  }

  // ---------------------------------------------------------------------
  // Events streamed to the token sink

  /** The map sent for one partial result (the placeholder tokens-per-second
      rate, a floating-point constant, is not modelled). */
  datatype InferenceEvent = InferenceEvent(partialResult: string, isDone: bool, totalTokens: int)

  /** What one engine callback `(partialResult, done)` publishes: one event
      to the current subscriber, or nothing when there is none. */
  function Deliveries(sink: Option<nat>, stream: seq<(string, bool)>): (ds: seq<Delivery<InferenceEvent>>)
    ensures |ds| <= |stream|
    ensures sink.None? ==> ds == []
  {
    if stream == [] then []
    else
      Publish(sink, InferenceEvent(stream[0].0, stream[0].1, TotalTokens(stream[0].0)))
      + Deliveries(sink, stream[1..])
  }

  /** While a sink is subscribed, every callback gives exactly one event, in
      order, carrying the callback's text and flag and a token count of at
      least one; with no sink, nothing is published. */
  lemma {:induction false} DeliveriesOnePerCallback(sink: Option<nat>, stream: seq<(string, bool)>)
    ensures sink.None? ==> Deliveries(sink, stream) == []
    ensures sink.Some? ==> |Deliveries(sink, stream)| == |stream|
    ensures sink.Some? ==> forall i :: 0 <= i < |stream| ==>
      var d := Deliveries(sink, stream)[i];
      && d.sink == sink.value
      && d.event.partialResult == stream[i].0
      && d.event.isDone == stream[i].1
      && d.event.totalTokens == multiset(stream[i].0)[' '] + 1
      && d.event.totalTokens >= 1
  {
    if stream != [] {
      DeliveriesOnePerCallback(sink, stream[1..]);
      TotalTokensCountsSpaces(stream[0].0);
      if sink.Some? {
        var ds := Deliveries(sink, stream);
        forall i | 0 <= i < |stream|
          ensures ds[i].sink == sink.value && ds[i].event.partialResult == stream[i].0
          ensures ds[i].event.isDone == stream[i].1
          ensures ds[i].event.totalTokens == multiset(stream[i].0)[' '] + 1
        {
          if i > 0 {
            assert ds[i] == Deliveries(sink, stream[1..])[i - 1];
            assert stream[1..][i - 1] == stream[i];
          }
        }
      }
    }
  }

  /** Callbacks delivered one after another publish the concatenation of
      what each publishes. */
  lemma {:induction false} DeliveriesAppend(sink: Option<nat>, a: seq<(string, bool)>, b: seq<(string, bool)>)
    ensures Deliveries(sink, a + b) == Deliveries(sink, a) + Deliveries(sink, b)
  {
    if a != [] {
      assert (a + b)[1..] == a[1..] + b;
      DeliveriesAppend(sink, a[1..], b);
    } else {
      assert a + b == b;
    }
  }

  /** Two partial results, the second one final, reach a subscribed sink as
      exactly two events, the second one marked done. */
  lemma TwoPartialsScenario(k: nat, stream: seq<(string, bool)>)
    requires stream == [("He", false), ("Hello", true)]
    ensures Deliveries(Some(k), stream) ==
      [Delivery(k, InferenceEvent("He", false, 1)), Delivery(k, InferenceEvent("Hello", true, 1))]
  {
    var he := "He";
    var hello := "Hello";
    TotalTokensCountsSpaces(he);
    TotalTokensCountsSpaces(hello);
    assert ' ' !in he && ' ' !in hello;
    assert TotalTokens(he) == 1 && TotalTokens(hello) == 1;
    assert stream[1..] == [(hello, true)] && stream[1..][1..] == [];
  }

  // ---------------------------------------------------------------------
  // Engine and session ownership

  /** The options the engine is built with. */
  datatype EngineConfig = EngineConfig(modelPath: string, maxTokens: int, backend: Backend)

  /** Calls into the inference library that returned normally, by opaque
      handle. */
  datatype Action =
    | CloseSession(handle: nat)
    | CloseEngine(handle: nat)
    | CreateEngine(handle: nat, config: EngineConfig)
    | CreateSession(handle: nat, engine: nat, topK: int)
    | AddQueryChunk(handle: nat, prompt: string)
    | GenerateAsync(handle: nat)
  {
    predicate IsRelease() { CloseSession? || CloseEngine? }
    predicate IsCreation() { CreateEngine? || CreateSession? }
  }

  /** The handler's fields `llmInference`, `llmSession`, `currentModelId`. */
  datatype Handles = Handles(engine: Option<nat>, session: Option<nat>, currentModelId: Option<string>)

  const NothingLoaded := Handles(None, None, None)

  /** Engine and session are held together, and a held engine belongs to a
      recorded model. */
  predicate Consistent(h: Handles) {
    && (h.engine.Some? <==> h.session.Some?)
    && (h.engine.Some? ==> h.currentModelId.Some?)
  }

  /** Every held handle was handed out before `next`. */
  predicate Below(h: Handles, next: nat) {
    && (h.engine.Some? ==> h.engine.value < next)
    && (h.session.Some? ==> h.session.value < next)
  }

  /** `llmSession?.close(); llmInference?.close()`. */
  function Releases(h: Handles): (rel: seq<Action>)
    ensures |rel| <= 2
    ensures forall i :: 0 <= i < |rel| ==> rel[i].IsRelease()
    ensures |rel| == 2 ==> rel[0].CloseSession? && rel[1].CloseEngine?
    ensures |rel| == 0 <==> h.session.None? && h.engine.None?
  {
    (if h.session.Some? then [CloseSession(h.session.value)] else [])
    + (if h.engine.Some? then [CloseEngine(h.engine.value)] else [])
  }

  // ---------------------------------------------------------------------
  // initializeModel

  /** The call's arguments (temperature and top-p, floating point, are not
      modelled). */
  datatype InitArgs = InitArgs(
    modelId: Option<string>,
    modelPath: Option<string>,
    maxTokens: Option<int>,
    topK: Option<int>,
    accelerator: Option<string>)

  /** Which library call throws during the initialisation, if it is made. */
  datatype InitFault =
    | NoInitFault
    | SessionCloseThrows
    | EngineCloseThrows
    | EngineCreateThrows
    | SessionCreateThrows

  /** The fault actually happens: its call is made on this state. */
  predicate InitFaultFires(h: Handles, fault: InitFault) {
    match fault
    case NoInitFault => false
    case SessionCloseThrows => h.session.Some?
    case EngineCloseThrows => h.engine.Some?
    case EngineCreateThrows => true
    case SessionCreateThrows => true
  }

  datatype InitOutcome = InitOutcome(handles: Handles, nextHandle: nat, reply: Reply, actions: seq<Action>)

  /** The model file to load: the catalogued location when the catalog
      knows the id, the caller's path otherwise; `None` when the catalog
      record has no file name (reading it throws outside any handler). */
  function ResolveModelPath(doc: CatalogDocument, root: string, modelId: string, incoming: string): (path: Option<string>)
    ensures path.None? <==> Lookup(doc, modelId).Some? && Lookup(doc, modelId).value.modelFile.None?
    ensures path.Some? && Lookup(doc, modelId).Some? ==>
      |root| + 1 <= |path.value| && path.value[..|root| + 1] == root + "/"
    ensures Lookup(doc, modelId).None? ==> path == Some(incoming)
  {
    match Lookup(doc, modelId)
    case None => Some(incoming)
    case Some(record) =>
      if record.modelFile.None? then None
      else Some(ModelPath(root, modelId, record.modelFile.value, record.version))
  }

  /** The engine options built from the arguments and the resolved path. */
  function EngineConfigFor(args: InitArgs, modelPath: string): (config: EngineConfig)
    ensures config.modelPath == modelPath
    ensures args.maxTokens.None? ==> config.maxTokens == DefaultMaxTokens
    ensures args.accelerator.None? ==> config.backend == Gpu
  {
    EngineConfig(modelPath, args.maxTokens.GetOr(DefaultMaxTokens),
                 SelectBackend(args.accelerator.GetOr(DefaultAccelerator)))
  }

  /** The work done off the caller's thread: close the old session, then the
      old engine, forget both, then build the new engine and session and
      record them with the model id. */
  function ReleaseAndCreate(h: Handles, next: nat, modelId: string, config: EngineConfig,
                            topK: int, fault: InitFault): (o: InitOutcome)
    ensures o.reply.Success? <==> !InitFaultFires(h, fault)
    ensures !o.reply.Success? ==> o.reply == Error(InitError) && o.handles.currentModelId == h.currentModelId
    ensures next <= o.nextHandle
  {
    var closeSession := if h.session.Some? then [CloseSession(h.session.value)] else [];
    if h.session.Some? && fault == SessionCloseThrows then
      InitOutcome(h, next, Error(InitError), [])
    else if h.engine.Some? && fault == EngineCloseThrows then
      InitOutcome(h, next, Error(InitError), closeSession)
    else
      var released := Handles(None, None, h.currentModelId);
      if fault == EngineCreateThrows then
        InitOutcome(released, next, Error(InitError), Releases(h))
      else if fault == SessionCreateThrows then
        InitOutcome(released, next + 1, Error(InitError), Releases(h) + [CreateEngine(next, config)])
      else
        InitOutcome(Handles(Some(next), Some(next + 1), Some(modelId)), next + 2, Success(Bool(true)),
                    Releases(h) + [CreateEngine(next, config), CreateSession(next + 1, next, topK)])
  }

  /** `initializeModel` on the handles `h`, with fresh handles numbered from
      `next`. */
  function Initialize(h: Handles, next: nat, args: InitArgs, doc: CatalogDocument, root: string,
                      fault: InitFault): (o: InitOutcome)
    ensures o.reply.Success? ==> args.modelId.Some? && args.modelPath.Some? && o.handles.currentModelId == args.modelId
    ensures !o.reply.Success? ==> o.handles.currentModelId == h.currentModelId
    ensures next <= o.nextHandle
  {
    if args.modelId.None? || args.modelPath.None? then
      InitOutcome(h, next, Error(InitError), [])
    else
      var path := ResolveModelPath(doc, root, args.modelId.value, args.modelPath.value);
      if path.None? then InitOutcome(h, next, Uncaught, [])
      else ReleaseAndCreate(h, next, args.modelId.value, EngineConfigFor(args, path.value),
                            args.topK.GetOr(DefaultTopK), fault)
  }

  /** A call without a model id or path is refused and changes nothing. */
  lemma InitializeRejectsMissingArguments(h: Handles, next: nat, args: InitArgs, doc: CatalogDocument,
                                          root: string, fault: InitFault)
    requires args.modelId.None? || args.modelPath.None?
    ensures Initialize(h, next, args, doc, root, fault) == InitOutcome(h, next, Error(InitError), [])
  {
  }

  /** The caller's path is used only for ids the catalog does not know; for
      a catalogued model the derived location overrides it. */
  lemma ResolveModelPathPrefersCatalog(doc: CatalogDocument, root: string, modelId: string, incoming: string)
    ensures Lookup(doc, modelId).None? ==> ResolveModelPath(doc, root, modelId, incoming) == Some(incoming)
    ensures Lookup(doc, modelId).Some? && Lookup(doc, modelId).value.modelFile.Some? ==>
      var record := Lookup(doc, modelId).value;
      ResolveModelPath(doc, root, modelId, incoming) ==
        Some(JoinPath(root, StorageDir(modelId), record.version.GetOr(DefaultVersion), record.modelFile.value))
  {
  }

  /** `acts` releases old handles only as the next call of `rel`, makes no
      release after a creation, and creates only fresh handles (numbered
      from `next`) once every call of `rel` was made. */
  ghost predicate ReleasesFirst(acts: seq<Action>, rel: seq<Action>, next: nat) {
    && (forall i :: 0 <= i < |acts| && acts[i].IsRelease() ==> i < |rel| && acts[i] == rel[i])
    && (forall i, j :: 0 <= i < j < |acts| && acts[i].IsCreation() ==> acts[j].IsCreation())
    && (forall i :: 0 <= i < |acts| && acts[i].IsCreation() ==>
          acts[i].handle >= next && |rel| <= |acts| && acts[..|rel|] == rel)
  }

  /** Old handles are released before anything new is created: every
      release is the next call of `Releases(h)` (session first, then
      engine), no release follows a creation, every creation uses a fresh
      handle, and a creation happens only after both old handles were
      released. */
  lemma InitializeReleasesBeforeCreating(h: Handles, next: nat, args: InitArgs, doc: CatalogDocument,
                                         root: string, fault: InitFault)
    ensures ReleasesFirst(Initialize(h, next, args, doc, root, fault).actions, Releases(h), next)
  {
    if args.modelId.None? || args.modelPath.None?
       || ResolveModelPath(doc, root, args.modelId.value, args.modelPath.value).None?
    {
      ReleasesThenCreations(Releases(h), 0, [], next);
      assert Releases(h)[..0] + [] == [];
    } else {
      var path := ResolveModelPath(doc, root, args.modelId.value, args.modelPath.value).value;
      ReleaseAndCreateReleasesFirst(h, next, args.modelId.value, EngineConfigFor(args, path),
                                    args.topK.GetOr(DefaultTopK), fault);
    }
  }

  /** The release-and-create step alone releases before it creates. */
  lemma ReleaseAndCreateReleasesFirst(h: Handles, next: nat, modelId: string, config: EngineConfig,
                                      topK: int, fault: InitFault)
    ensures ReleasesFirst(ReleaseAndCreate(h, next, modelId, config, topK, fault).actions, Releases(h), next)
  {
    var acts := ReleaseAndCreate(h, next, modelId, config, topK, fault).actions;
    var rel := Releases(h);
    var k: nat, creations: seq<Action> := |rel|, [];
    if h.session.Some? && fault == SessionCloseThrows {
      k := 0;
    } else if h.engine.Some? && fault == EngineCloseThrows {
      k := if h.session.Some? then 1 else 0;
    } else if fault == SessionCreateThrows {
      creations := [CreateEngine(next, config)];
    } else if fault != EngineCreateThrows {
      creations := [CreateEngine(next, config), CreateSession(next + 1, next, topK)];
    }
    assert acts == rel[..k] + creations;
    ReleasesThenCreations(rel, k, creations, next);
  }

  /** A prefix of the releases followed by creations of fresh handles, where
      creations come only after all releases, releases first. */
  lemma ReleasesThenCreations(rel: seq<Action>, k: nat, creations: seq<Action>, next: nat)
    requires k <= |rel|
    requires forall i :: 0 <= i < |rel| ==> rel[i].IsRelease()
    requires forall i :: 0 <= i < |creations| ==> creations[i].IsCreation() && creations[i].handle >= next
    requires creations != [] ==> k == |rel|
    ensures ReleasesFirst(rel[..k] + creations, rel, next)
  {
    var acts := rel[..k] + creations;
    assert forall i :: 0 <= i < k ==> acts[i] == rel[i] && acts[i].IsRelease();
    assert forall i :: k <= i < |acts| ==> acts[i] == creations[i - k];
    if creations != [] {
      assert acts[..|rel|] == rel;
    }
  }

  /** Given both arguments and a usable path, the initialisation succeeds
      exactly when no library call throws; then the new engine (built
      from the resolved path, the token budget defaulting to 8192, the
      selected backend) and the session on it (top-k defaulting to 40) are
      held with the model id. On failure the reply is INIT_ERROR and the
      recorded model id is the old one. */
  lemma InitializeSucceedsUnlessAFaultFires(h: Handles, next: nat, args: InitArgs, doc: CatalogDocument,
                                            root: string, fault: InitFault)
    requires args.modelId.Some? && args.modelPath.Some?
    requires ResolveModelPath(doc, root, args.modelId.value, args.modelPath.value).Some?
    ensures var o := Initialize(h, next, args, doc, root, fault);
      && (o.reply.Success? <==> !InitFaultFires(h, fault))
      && (o.reply.Success? ==>
            var path := ResolveModelPath(doc, root, args.modelId.value, args.modelPath.value).value;
            && o.reply == Success(Bool(true))
            && o.handles == Handles(Some(next), Some(next + 1), args.modelId)
            && o.nextHandle == next + 2
            && o.actions == Releases(h) + [
                 CreateEngine(next, EngineConfig(path, args.maxTokens.GetOr(8192),
                                                 SelectBackend(args.accelerator.GetOr("gpu")))),
                 CreateSession(next + 1, next, args.topK.GetOr(40))])
      && (!o.reply.Success? ==>
            o.reply == Error(InitError) && o.handles.currentModelId == h.currentModelId)
  {
  }

  /** When building the engine or the session throws, neither handle is
      held afterwards (the old ones were already released). */
  lemma InitializeCreationFailureHoldsNothing(h: Handles, next: nat, args: InitArgs, doc: CatalogDocument,
                                              root: string, fault: InitFault)
    requires args.modelId.Some? && args.modelPath.Some?
    requires ResolveModelPath(doc, root, args.modelId.value, args.modelPath.value).Some?
    requires fault == EngineCreateThrows || fault == SessionCreateThrows
    ensures var o := Initialize(h, next, args, doc, root, fault);
      && o.handles == Handles(None, None, h.currentModelId)
      && o.actions[..|Releases(h)|] == Releases(h)
  {
  }

  /** When the session cannot be built, the engine built just before it is
      neither held nor closed: it stays loaded with nothing referring to it. */
  lemma SessionFailureLeaksEngine(h: Handles, next: nat, args: InitArgs, doc: CatalogDocument,
                                  root: string)
    requires Below(h, next)
    requires args.modelId.Some? && args.modelPath.Some?
    requires ResolveModelPath(doc, root, args.modelId.value, args.modelPath.value).Some?
    ensures var o := Initialize(h, next, args, doc, root, SessionCreateThrows);
      && (exists i :: 0 <= i < |o.actions| && o.actions[i].CreateEngine? && o.actions[i].handle == next)
      && CloseEngine(next) !in o.actions
      && o.handles.engine != Some(next)
  {
    var o := Initialize(h, next, args, doc, root, SessionCreateThrows);
    assert o.actions[|Releases(h)|].CreateEngine?;
  }

  /** Initialisation keeps the handles consistent and fresh. */
  lemma InitializeKeepsConsistency(h: Handles, next: nat, args: InitArgs, doc: CatalogDocument,
                                   root: string, fault: InitFault)
    requires Consistent(h) && Below(h, next)
    ensures var o := Initialize(h, next, args, doc, root, fault);
      Consistent(o.handles) && Below(o.handles, o.nextHandle) && o.nextHandle >= next
  {
  }

  // ---------------------------------------------------------------------
  // isModelDownloaded

  /** `isModelDownloaded`: the catalogued file is at its derived location
      with exactly the catalogued length. A missing id, an unknown id, an
      unreadable document or an incomplete record all answer false. */
  function IsModelDownloaded(fs: FileSystem, root: string, doc: CatalogDocument, modelId: Option<string>): (r: Reply)
    ensures r.Success? && r.value.Bool?
  {
    if modelId.None? then Success(Bool(false))
    else
      match Lookup(doc, modelId.value)
      case None => Success(Bool(false))
      case Some(record) =>
        if record.modelFile.None? || record.sizeInBytes.None? then Success(Bool(false))
        else Success(Bool(Present(fs, ModelPath(root, modelId.value, record.modelFile.value, record.version),
                                  record.sizeInBytes.value)))
  }

  /** The answer is true exactly when an id is given, the catalog has a
      record for it with a file name and a size, and that file is at its
      derived location with that size; a missing id, an unknown id, an
      unreadable document or an incomplete record all answer false. */
  lemma IsModelDownloadedExactly(fs: FileSystem, root: string, doc: CatalogDocument, modelId: Option<string>)
    ensures IsModelDownloaded(fs, root, doc, modelId) == Success(Bool(true)) <==>
      && modelId.Some?
      && Lookup(doc, modelId.value).Some?
      && Lookup(doc, modelId.value).value.modelFile.Some?
      && Lookup(doc, modelId.value).value.sizeInBytes.Some?
      && Present(fs, ModelPath(root, modelId.value, Lookup(doc, modelId.value).value.modelFile.value,
                               Lookup(doc, modelId.value).value.version),
                 Lookup(doc, modelId.value).value.sizeInBytes.value)
    ensures modelId.None? || Lookup(doc, modelId.value).None? ==>
      IsModelDownloaded(fs, root, doc, modelId) == Success(Bool(false))
  {
  }

  /** The answer is recomputed from the file system each time: writing the
      derived file with exactly the catalogued length makes it true, any
      other length makes it false, and deleting the file makes it false. */
  lemma IsModelDownloadedFollowsTheFile(fs: FileSystem, root: string, doc: CatalogDocument,
                                        modelId: string, length: int)
    requires Lookup(doc, modelId).Some?
    requires Lookup(doc, modelId).value.modelFile.Some? && Lookup(doc, modelId).value.sizeInBytes.Some?
    ensures var record := Lookup(doc, modelId).value;
      var path := ModelPath(root, modelId, record.modelFile.value, record.version);
      && IsModelDownloaded(fs[path := length], root, doc, Some(modelId))
           == Success(Bool(length == record.sizeInBytes.value))
      && IsModelDownloaded(fs - {path}, root, doc, Some(modelId)) == Success(Bool(false))
  {
  }

  /** A model reported downloaded is loaded from the very file that was
      checked, whatever path the caller passed. */
  lemma InitializeLoadsCheckedFile(fs: FileSystem, root: string, doc: CatalogDocument, h: Handles,
                                   next: nat, args: InitArgs, fault: InitFault)
    requires args.modelId.Some? && args.modelPath.Some?
    requires IsModelDownloaded(fs, root, doc, args.modelId) == Success(Bool(true))
    ensures var o := Initialize(h, next, args, doc, root, fault);
      forall i :: 0 <= i < |o.actions| && o.actions[i].CreateEngine? ==>
        var record := Lookup(doc, args.modelId.value).value;
        Present(fs, o.actions[i].config.modelPath, record.sizeInBytes.value)
  {
    var o := Initialize(h, next, args, doc, root, fault);
    var rel := Releases(h);
    assert forall i :: 0 <= i < |rel| ==> !rel[i].CreateEngine?;
  }

  /** The example layout: id "m1", file "m1.bin", 1000 bytes, no version. */
  lemma PresenceScenario(root: string, modelId: string, doc: CatalogDocument)
    requires root == "R" && modelId == "m1"
    requires doc == Some([ModelRecord(Some(modelId), Some("m1.bin"), None, Some(1000))])
    ensures ModelPath(root, modelId, "m1.bin", None) == "R/m1/main/m1.bin"
    ensures IsModelDownloaded(map[], root, doc, Some(modelId)) == Success(Bool(false))
    ensures IsModelDownloaded(map["R/m1/main/m1.bin" := 1000], root, doc, Some(modelId)) == Success(Bool(true))
    ensures IsModelDownloaded(map["R/m1/main/m1.bin" := 999], root, doc, Some(modelId)) == Success(Bool(false))
  {
    StorageDirOfPlainId(modelId);
  }

  // ---------------------------------------------------------------------
  // generateResponse

  /** Which library call throws while starting a generation, if made. */
  datatype GenerateFault = NoGenerateFault | AddQueryThrows | GenerateThrows

  datatype GenerateOutcome = GenerateOutcome(reply: Reply, actions: seq<Action>)

  /** `generateResponse` with the session currently held: add the prompt to
      the session, start the asynchronous generation, acknowledge at once. */
  function Generate(session: Option<nat>, prompt: Option<string>, fault: GenerateFault): (o: GenerateOutcome)
    ensures o.reply.Success? ==> prompt.Some? && session.Some?
    ensures |o.actions| <= 2
  {
    if prompt.None? then GenerateOutcome(Error(NoPrompt), [])
    else if session.None? then GenerateOutcome(Error(NoModel), [])
    else if fault == AddQueryThrows then GenerateOutcome(Error(InferenceError), [])
    else if fault == GenerateThrows then
      GenerateOutcome(Error(InferenceError), [AddQueryChunk(session.value, prompt.value)])
    else
      GenerateOutcome(Success(Null), [AddQueryChunk(session.value, prompt.value), GenerateAsync(session.value)])
  }

  /** A missing prompt is NO_PROMPT, no session is NO_MODEL, in both cases
      without touching the library; a generation starts (and the reply is
      success with no value) exactly when the prompt was added to the held
      session first and nothing threw. */
  lemma GenerateStartsOnlyWithPromptAndSession(session: Option<nat>, prompt: Option<string>, fault: GenerateFault)
    ensures var o := Generate(session, prompt, fault);
      && (prompt.None? ==> o == GenerateOutcome(Error(NoPrompt), []))
      && (prompt.Some? && session.None? ==> o == GenerateOutcome(Error(NoModel), []))
      && (o.reply.Success? <==> prompt.Some? && session.Some? && fault == NoGenerateFault)
      && (o.reply.Success? ==>
            && o.reply == Success(Null)
            && o.actions == [AddQueryChunk(session.value, prompt.value), GenerateAsync(session.value)])
      && (forall i :: 0 <= i < |o.actions| ==> o.actions[i].handle == session.value)
      && (forall i :: 0 <= i < |o.actions| && o.actions[i].GenerateAsync? ==>
            (0 < i && o.actions[i - 1] == AddQueryChunk(session.value, prompt.value)))
  {
  }

  // ---------------------------------------------------------------------
  // disposeModel

  /** Which close call throws while disposing, if made. */
  datatype DisposeFault = NoDisposeFault | SessionCloseFails | EngineCloseFails

  datatype DisposeOutcome = DisposeOutcome(handles: Handles, reply: Reply, actions: seq<Action>)

  /** `disposeModel`: close the session, then the engine, then forget both
      and the model id; a throwing close skips the rest. */
  function Dispose(h: Handles, fault: DisposeFault): (o: DisposeOutcome)
    ensures o.actions <= Releases(h)
    ensures o.reply.Success? || o.handles == h
  {
    if h.session.Some? && fault == SessionCloseFails then
      DisposeOutcome(h, Error(DisposeError), [])
    else if h.engine.Some? && fault == EngineCloseFails then
      DisposeOutcome(h, Error(DisposeError), if h.session.Some? then [CloseSession(h.session.value)] else [])
    else
      DisposeOutcome(NothingLoaded, Success(Null), Releases(h))
  }

  /** Disposal closes a prefix of (session, engine); it succeeds exactly
      when no close throws, and then nothing is held and every held handle
      was closed; when a close throws the reply is DISPOSE_ERROR, every
      field keeps its value and the closes that returned are a proper
      prefix. With nothing loaded it always succeeds. */
  lemma DisposeReleasesInOrder(h: Handles, fault: DisposeFault)
    ensures var o := Dispose(h, fault);
      && o.actions <= Releases(h)
      && (o.reply.Success? <==>
            !(h.session.Some? && fault == SessionCloseFails) && !(h.engine.Some? && fault == EngineCloseFails))
      && (o.reply.Success? ==> o.reply == Success(Null) && o.handles == NothingLoaded && o.actions == Releases(h))
      && (!o.reply.Success? ==> o.reply == Error(DisposeError) && o.handles == h && |o.actions| < |Releases(h)|)
      && (h.engine.None? && h.session.None? ==> o == DisposeOutcome(NothingLoaded, Success(Null), []))
  {
  }

  // ---------------------------------------------------------------------
  // The handler object

  class LlmInferenceHandler {
    var llmInference: Option<nat>
    var llmSession: Option<nat>
    var currentModelId: Option<string>
    var inferenceEventSink: Option<nat>
    /** The next handle number the library hands out. */
    var nextHandle: nat
    /** Every event the token sinks have received, in order. */
    ghost var published: seq<Delivery<InferenceEvent>>
    /** Every call made into the inference library, in order. */
    ghost var trace: seq<Action>

    function State(): Handles
      reads this
    {
      Handles(llmInference, llmSession, currentModelId)
    }

    ghost predicate Valid()
      reads this
    {
      Consistent(State()) && Below(State(), nextHandle)
    }

    constructor ()
      ensures Valid() && State() == NothingLoaded
      ensures inferenceEventSink.None? && published == [] && trace == []
    {
      llmInference, llmSession, currentModelId := None, None, None;
      inferenceEventSink := None;
      nextHandle := 0;
      published := [];
      trace := [];
    }

    /** The stream handler's `onListen`: the new subscriber replaces any
        previous one. */
    method OnListen(events: Option<nat>)
      modifies this`inferenceEventSink
      ensures inferenceEventSink == events
    {
      inferenceEventSink := events;
    }

    /** The stream handler's `onCancel`. */
    method OnCancel()
      modifies this`inferenceEventSink
      ensures inferenceEventSink.None?
    {
      inferenceEventSink := None;
    }

    method InitializeModel(args: InitArgs, doc: CatalogDocument, root: string, fault: InitFault)
      returns (reply: Reply)
      requires Valid()
      modifies this`llmInference, this`llmSession, this`currentModelId, this`nextHandle, this`trace
      ensures Valid()
      ensures var o := Initialize(old(State()), old(nextHandle), args, doc, root, fault);
        && State() == o.handles && nextHandle == o.nextHandle && reply == o.reply
        && trace == old(trace) + o.actions
    {
      if args.modelId.None? || args.modelPath.None? {
        return Error(InitError);
      }
      var modelId := args.modelId.value;
      var modelPath: string;
      var modelConfig := GetModelConfig(doc, modelId);
      if modelConfig.Some? {
        if modelConfig.value.modelFile.None? {
          return Uncaught;
        }
        modelPath := ModelPath(root, modelId, modelConfig.value.modelFile.value, modelConfig.value.version);
      } else {
        modelPath := args.modelPath.value;
      }
      var options := EngineConfig(modelPath, args.maxTokens.GetOr(DefaultMaxTokens),
                                  SelectBackend(args.accelerator.GetOr(DefaultAccelerator)));
      reply := ReplaceModel(modelId, options, args.topK.GetOr(DefaultTopK), fault);
    }

    /** The coroutine body of `initializeModel`: close the old session, then
        the old engine, forget both, build the new engine and the session on
        it, and only then hold them with the model id. */
    method ReplaceModel(modelId: string, options: EngineConfig, topK: int, fault: InitFault)
      returns (reply: Reply)
      requires Valid()
      modifies this`llmInference, this`llmSession, this`currentModelId, this`nextHandle, this`trace
      ensures Valid()
      ensures var o := ReleaseAndCreate(old(State()), old(nextHandle), modelId, options, topK, fault);
        && State() == o.handles && nextHandle == o.nextHandle && reply == o.reply
        && trace == old(trace) + o.actions
    {
      ghost var before := State();
      if llmSession.Some? {
        if fault == SessionCloseThrows {
          return Error(InitError);
        }
        trace := trace + [CloseSession(llmSession.value)];
      }
      if llmInference.Some? {
        if fault == EngineCloseThrows {
          return Error(InitError);
        }
        trace := trace + [CloseEngine(llmInference.value)];
      }
      assert trace == old(trace) + Releases(before);
      llmSession := None;
      llmInference := None;
      if fault == EngineCreateThrows {
        return Error(InitError);
      }
      var inference := nextHandle;
      nextHandle := nextHandle + 1;
      trace := trace + [CreateEngine(inference, options)];
      if fault == SessionCreateThrows {
        return Error(InitError);
      }
      var session := nextHandle;
      nextHandle := nextHandle + 1;
      trace := trace + [CreateSession(session, inference, topK)];
      llmInference := Some(inference);
      llmSession := Some(session);
      currentModelId := Some(modelId);
      reply := Success(Bool(true));
    }

    method GenerateResponse(prompt: Option<string>, fault: GenerateFault) returns (reply: Reply)
      modifies this`trace
      ensures var o := Generate(llmSession, prompt, fault);
        reply == o.reply && trace == old(trace) + o.actions
    {
      if prompt.None? {
        return Error(NoPrompt);
      }
      var session := llmSession;
      if session.None? {
        return Error(NoModel);
      }
      if fault == AddQueryThrows {
        return Error(InferenceError);
      }
      trace := trace + [AddQueryChunk(session.value, prompt.value)];
      if fault == GenerateThrows {
        return Error(InferenceError);
      }
      trace := trace + [GenerateAsync(session.value)];
      reply := Success(Null);
    }

    /** The callback a started generation invokes with each partial result.
        It publishes to whichever sink is subscribed now, whether or not
        `origin` is still the held session. */
    method OnPartialResult(ghost origin: nat, partialResult: string, done: bool)
      requires GenerateAsync(origin) in trace
      modifies this`published
      ensures published == old(published) + Deliveries(inferenceEventSink, [(partialResult, done)])
    {
      var event := InferenceEvent(partialResult, done, TotalTokens(partialResult));
      if inferenceEventSink.Some? {
        published := published + [Delivery(inferenceEventSink.value, event)];
      }
    }

    method DisposeModel(fault: DisposeFault) returns (reply: Reply)
      requires Valid()
      modifies this`llmInference, this`llmSession, this`currentModelId, this`trace
      ensures Valid()
      ensures var o := Dispose(old(State()), fault);
        State() == o.handles && reply == o.reply && trace == old(trace) + o.actions
    {
      if llmSession.Some? {
        if fault == SessionCloseFails {
          return Error(DisposeError);
        }
        trace := trace + [CloseSession(llmSession.value)];
      }
      if llmInference.Some? {
        if fault == EngineCloseFails {
          return Error(DisposeError);
        }
        trace := trace + [CloseEngine(llmInference.value)];
      }
      llmSession := None;
      llmInference := None;
      currentModelId := None;
      reply := Success(Null);
    }
  }
}
