/**
 The Windows hotkey listener: a registry from listener-assigned identifiers to
 callbacks, the claim of a global key combination from the operating system,
 and the message pump that dispatches hotkey notifications to the callbacks.

 The operating system is not modelled: its claim call is an oracle over the
 claim request, and its message queue is a finite sequence of pump results.
 Callbacks are opaque labels of a type parameter `H`; dispatch records the
 labels it invokes, in order.
 */
module Windows {

  // ---------------------------------------------------------------------------
  // Machine integers
  // ---------------------------------------------------------------------------

  const I32_MIN: int := -0x8000_0000
  const I32_MAX: int := 0x7FFF_FFFF
  const TWO_TO_32: int := 0x1_0000_0000

  type u32 = x: int | 0 <= x < 0x1_0000_0000
  /** `usize` on a 64-bit target. */
  type usize = x: int | 0 <= x < 0x1_0000_0000_0000_0000

  /** The `as i32` cast of a `usize`: keep the low 32 bits, read them as two's complement. */
  function AsI32(w: usize): (r: ListenerId)
    ensures (r - w) % TWO_TO_32 == 0
    ensures w <= I32_MAX ==> r == w
  {
    var low := w % TWO_TO_32;
    if low <= I32_MAX then low else low - TWO_TO_32
  }

  // ---------------------------------------------------------------------------
  // Registration
  // ---------------------------------------------------------------------------

  datatype Option<T> = None | Some(value: T)

  datatype Result<T, E> = Ok(value: T) | Err(error: E)

  /** `ListenerID`, an `i32`. */
  type ListenerId = x: int | I32_MIN <= x <= I32_MAX

  type RegisterResult = Result<ListenerId, string>

  const RegisterFailed: string := "Failed to register hotkey"

  /** `HWND(0)`: the claim is not tied to a window, so the hotkey is global. */
  const NoWindow: int := 0

  /** The arguments of one call to the operating system's `RegisterHotKey`. */
  datatype Claim = Claim(window: int, id: ListenerId, modifiers: u32, key: u32)

  /** What one call of `register_hotkey` with identifier `id` may return. */
  ghost predicate IsOutcomeOf(r: RegisterResult, id: ListenerId)
  {
    r == Ok(id) || r == Err(RegisterFailed)
  }

  /**
   The results of all registration calls on one listener, in call order:
   call number `k` (from 0) used identifier `k + 1`.
   */
  ghost predicate WellFormedHistory(history: seq<RegisterResult>)
  {
    && |history| <= I32_MAX
    && forall k :: 0 <= k < |history| ==> IsOutcomeOf(history[k], k + 1)
  }

  /** The identifiers handed back by the successful calls of `history`, in call order. */
  function SuccessfulIds(history: seq<RegisterResult>): (ids: seq<ListenerId>)
    ensures |ids| <= |history|
    ensures forall id :: id in ids <==> exists k :: 0 <= k < |history| && history[k] == Ok(id)
  {
    if history == [] then []
    else
      var prefix := history[..|history| - 1];
      var last := history[|history| - 1];
      assert forall k :: 0 <= k < |history| - 1 ==> history[k] == prefix[k];
      SuccessfulIds(prefix) + (if last.Ok? then [last.value] else [])
  }

  /** Successful registrations return strictly increasing, hence pairwise distinct, identifiers. */
  lemma {:induction false} SuccessfulIdsIncreasing(history: seq<RegisterResult>)
    requires WellFormedHistory(history)
    ensures forall i, j :: 0 <= i < j < |SuccessfulIds(history)| ==>
              SuccessfulIds(history)[i] < SuccessfulIds(history)[j]
    ensures forall id :: id in SuccessfulIds(history) ==> 1 <= id <= |history|
  {
    if history != [] {
      var prefix := history[..|history| - 1];
      var last := history[|history| - 1];
      assert WellFormedHistory(prefix) by {
        forall k | 0 <= k < |prefix| ensures IsOutcomeOf(prefix[k], k + 1) {
          assert prefix[k] == history[k];
        }
      }
      SuccessfulIdsIncreasing(prefix);
      assert IsOutcomeOf(last, |history|);
      var before := SuccessfulIds(prefix);
      assert SuccessfulIds(history) == before + (if last.Ok? then [last.value] else []);
      if last.Ok? {
        assert last.value == |history|;
        forall i | 0 <= i < |before| ensures before[i] < |history| {
          assert before[i] in before;
        }
      }
    }
  }

  /** An identifier consumed by a failed registration is never returned by any call. */
  lemma FailedIdNeverReturned(history: seq<RegisterResult>, k: nat)
    requires WellFormedHistory(history)
    requires k < |history| && history[k].Err?
    ensures k + 1 !in SuccessfulIds(history)
  {
    forall j | 0 <= j < |history| ensures history[j] != Ok(k + 1) {
      assert IsOutcomeOf(history[j], j + 1);
      if j == k {
        assert history[j].Err?;
      } else {
        assert history[j].Ok? ==> history[j].value == j + 1;
      }
    }
    var ids := SuccessfulIds(history);
    assert forall id :: id in ids ==> exists j :: 0 <= j < |history| && history[j] == Ok(id);
  }

  /** The handler map holds exactly the identifiers of the successful calls of `history`. */
  ghost predicate RegistryMatches<H>(history: seq<RegisterResult>, handlers: map<ListenerId, H>)
  {
    forall id :: id in handlers <==> 1 <= id <= |history| && history[id - 1] == Ok(id)
  }

  /** On a consistent listener, the registered identifiers are exactly those returned so far. */
  lemma RegisteredAreReturned<H>(history: seq<RegisterResult>, handlers: map<ListenerId, H>)
    requires WellFormedHistory(history)
    requires RegistryMatches(history, handlers)
    ensures forall id :: id in handlers <==> id in SuccessfulIds(history)
  {
    forall id | id in SuccessfulIds(history) ensures id in handlers {
      var k :| 0 <= k < |history| && history[k] == Ok(id);
      assert IsOutcomeOf(history[k], k + 1);
    }
  }

  // ---------------------------------------------------------------------------
  // Dispatch
  // ---------------------------------------------------------------------------

  /** The fields of a retrieved `MSG` that dispatch can see. */
  datatype Message = Message(kind: u32, wParam: usize, wParamInvalid: bool)

  /**
   One call of `GetMessageW`: a retrieved message (a non-zero `BOOL`) or
   the zero `BOOL` that ends the inner pump loop.
   */
  datatype Pump = Got(msg: Message) | Stop

  /** The registry key a message is looked up under, if its `wParam` is usable. */
  function Target(m: Message): (r: Option<ListenerId>)
    ensures r.Some? <==> !m.wParamInvalid
    ensures r.Some? ==> (r.value - m.wParam) % TWO_TO_32 == 0
  {
    if m.wParamInvalid then None else Some(AsI32(m.wParam))
  }

  /** True if `p` is a message whose target has a registered handler. */
  predicate Hits<H(==)>(handlers: map<ListenerId, H>, p: Pump)
  {
    p.Got? && Target(p.msg).Some? && Target(p.msg).value in handlers
  }

  /** The callbacks one pump result causes to run. */
  function Handle<H(==)>(handlers: map<ListenerId, H>, p: Pump): (r: seq<H>)
    ensures |r| <= 1
    ensures |r| == 1 <==> Hits(handlers, p)
    ensures Hits(handlers, p) ==> r == [handlers[Target(p.msg).value]]
  {
    if Hits(handlers, p) then [handlers[Target(p.msg).value]] else []
  }

  /** The callbacks a finite stream of pump results causes to run, in order. */
  function Dispatched<H(==)>(handlers: map<ListenerId, H>, pump: seq<Pump>): (r: seq<H>)
    ensures |r| <= |pump|
    ensures forall k :: 0 <= k < |r| ==> r[k] in handlers.Values
    decreases |pump|
  {
    if pump == [] then []
    else Dispatched(handlers, pump[..|pump| - 1]) + Handle(handlers, pump[|pump| - 1])
  }

  /** Dispatch of a stream is the dispatch of its first part followed by that of the rest. */
  lemma {:induction false} DispatchedAppend<H>(handlers: map<ListenerId, H>, a: seq<Pump>, b: seq<Pump>)
    ensures Dispatched(handlers, a + b) == Dispatched(handlers, a) + Dispatched(handlers, b)
    decreases |b|
  {
    if b == [] {
      assert a + b == a;
    } else {
      var b' := b[..|b| - 1];
      assert (a + b)[..|a + b| - 1] == a + b';
      assert (a + b)[|a + b| - 1] == b[|b| - 1];
      DispatchedAppend(handlers, a, b');
    }
  }

  /** Nothing runs exactly when no message of the stream targets a registered identifier. */
  lemma {:induction false} DispatchedEmptyIff<H>(handlers: map<ListenerId, H>, pump: seq<Pump>)
    ensures Dispatched(handlers, pump) == [] <==> forall k :: 0 <= k < |pump| ==> !Hits(handlers, pump[k])
    decreases |pump|
  {
    if pump != [] {
      var prefix := pump[..|pump| - 1];
      DispatchedEmptyIff(handlers, prefix);
      assert forall k :: 0 <= k < |prefix| ==> prefix[k] == pump[k];
    }
  }

  /** Two messages that differ at most in their kind. */
  predicate SameButKind(p: Pump, q: Pump)
  {
    p.Got? == q.Got? &&
    (p.Got? ==> p.msg.wParam == q.msg.wParam && p.msg.wParamInvalid == q.msg.wParamInvalid)
  }

  /** The message kind plays no part in dispatch: only `wParam` is looked at. */
  lemma {:induction false} DispatchedIgnoresKind<H>(handlers: map<ListenerId, H>, pump: seq<Pump>, other: seq<Pump>)
    requires |pump| == |other|
    requires forall k :: 0 <= k < |pump| ==> SameButKind(pump[k], other[k])
    ensures Dispatched(handlers, pump) == Dispatched(handlers, other)
    decreases |pump|
  {
    if pump != [] {
      var n := |pump| - 1;
      assert SameButKind(pump[n], other[n]);
      DispatchedIgnoresKind(handlers, pump[..n], other[..n]);
    }
  }

  /** The number of pump results in `pump` whose message targets identifier `id` and is usable. */
  function Triggers(pump: seq<Pump>, id: ListenerId): (n: nat)
    ensures n <= |pump|
    decreases |pump|
  {
    if pump == [] then 0
    else
      var p := pump[|pump| - 1];
      Triggers(pump[..|pump| - 1], id) + (if p.Got? && Target(p.msg) == Some(id) then 1 else 0)
  }

  /** Counting is additive over a split stream: each message is counted on its own. */
  lemma {:induction false} TriggersAppend(a: seq<Pump>, b: seq<Pump>, id: ListenerId)
    ensures Triggers(a + b, id) == Triggers(a, id) + Triggers(b, id)
    decreases |b|
  {
    if b == [] {
      assert a + b == a;
    } else {
      var b' := b[..|b| - 1];
      assert (a + b)[..|a + b| - 1] == a + b';
      assert (a + b)[|a + b| - 1] == b[|b| - 1];
      TriggersAppend(a, b', id);
    }
  }

  /** No two registered identifiers share a callback. */
  ghost predicate DistinctCallbacks<H>(handlers: map<ListenerId, H>)
  {
    forall i, j :: i in handlers && j in handlers && handlers[i] == handlers[j] ==> i == j
  }

  /**
   With distinct callbacks, the callback of a registered identifier runs once
   for every usable message that targets the identifier, and never otherwise.
   */
  lemma {:induction false} DispatchedCount<H>(handlers: map<ListenerId, H>, pump: seq<Pump>, id: ListenerId)
    requires DistinctCallbacks(handlers)
    requires id in handlers
    ensures multiset(Dispatched(handlers, pump))[handlers[id]] == Triggers(pump, id)
    decreases |pump|
  {
    if pump != [] {
      var n := |pump| - 1;
      DispatchedCount(handlers, pump[..n], id);
      var p := pump[n];
      if Hits(handlers, p) {
        assert handlers[Target(p.msg).value] == handlers[id] <==> Target(p.msg) == Some(id);
      }
    }
  }

  // ---------------------------------------------------------------------------
  // The listener
  // ---------------------------------------------------------------------------

  class Listener<H(==)> {
    var lastId: int
    var handlers: map<ListenerId, H>
    /** The result of every `RegisterHotkey` call so far, in call order. */
    ghost var history: seq<RegisterResult>

    ghost predicate Valid()
      reads this
    {
      && 0 <= lastId <= I32_MAX
      && lastId == |history|
      && WellFormedHistory(history)
      && RegistryMatches(history, handlers)
      && (forall id :: id in handlers ==> 1 <= id <= lastId)
    }

    /** `Listener::new`: no identifier used yet and no handler registered. */
    constructor ()
      ensures Valid()
      ensures lastId == 0 && handlers == map[] && history == []
    {
      lastId := 0;
      handlers := map[];
      history := [];
    }

    /**
     `Listener::register_hotkey`: take the next identifier, claim the
     combination from the operating system (`os` answers the claim), and keep
     the handler only when the claim succeeds.
     */
    method RegisterHotkey(modifiers: u32, key: u32, handler: H, os: Claim -> bool) returns (r: RegisterResult)
      requires Valid()
      requires lastId < I32_MAX
      modifies this
      ensures Valid()
      ensures lastId == old(lastId) + 1
      ensures lastId !in old(handlers)
      ensures os(Claim(NoWindow, lastId, modifiers, key)) ==>
                r == Ok(lastId) && handlers == old(handlers)[lastId := handler]
      ensures !os(Claim(NoWindow, lastId, modifiers, key)) ==>
                r == Err(RegisterFailed) && handlers == old(handlers)
      ensures history == old(history) + [r]
    {
      lastId := lastId + 1;
      var id := lastId;
      var claimed := os(Claim(NoWindow, id, modifiers, key));
      if !claimed {
        r := Err(RegisterFailed);
        history := history + [r];
        return;
      }
      handlers := handlers[id := handler];
      r := Ok(id);
      history := history + [r];
    }

    /**
     The dispatch loop of `Listener::listen` over a finite stream of
     `GetMessageW` results. The inner loop runs while messages arrive; a
     `Stop` ends it and the outer loop starts it again.
     */
    method Listen(pump: seq<Pump>) returns (invoked: seq<H>)
      ensures invoked == Dispatched(handlers, pump)
    {
      invoked := [];
      var i := 0;
      while i < |pump|
        invariant 0 <= i <= |pump|
        invariant invoked == Dispatched(handlers, pump[..i])
        decreases |pump| - i
      {
        while i < |pump| && pump[i].Got?
          invariant 0 <= i <= |pump|
          invariant invoked == Dispatched(handlers, pump[..i])
          decreases |pump| - i
        {
          var msg := pump[i].msg;
          if !msg.wParamInvalid {
            var id := AsI32(msg.wParam);
            if id in handlers {
              invoked := invoked + [handlers[id]];
            }
          }
          assert pump[..i + 1][..i] == pump[..i];
          i := i + 1;
        }
        if i < |pump| {
          assert pump[..i + 1][..i] == pump[..i];
          i := i + 1;
        }
      }
      assert pump[..i] == pump;
    }
  }

  // ---------------------------------------------------------------------------
  // Scenarios
  // ---------------------------------------------------------------------------

  const MOD_CONTROL: u32 := 0x0002
  const WM_HOTKEY: u32 := 0x0312

  /** An operating system that refuses the second claim: the identifiers returned are 1, then 3. */
  method SecondClaimRefused() returns (first: RegisterResult, second: RegisterResult, third: RegisterResult)
    ensures first == Ok(1) && second == Err(RegisterFailed) && third == Ok(3)
  {
    var listener := new Listener<char>();
    var os := (c: Claim) => c.id != 2;
    first := listener.RegisterHotkey(MOD_CONTROL, 0x41, 'a', os);
    second := listener.RegisterHotkey(MOD_CONTROL, 0x42, 'b', os);
    third := listener.RegisterHotkey(MOD_CONTROL, 0x43, 'c', os);
  }

  /** Notifications carrying 1, 2, 1 and 99. */
  const ExamplePump: seq<Pump> :=
    [Got(Message(WM_HOTKEY, 1, false)), Got(Message(WM_HOTKEY, 2, false)),
     Got(Message(WM_HOTKEY, 1, false)), Got(Message(WM_HOTKEY, 99, false))]

  /** With A under 1 and B under 2, `ExamplePump` runs A, B, A; 99 has no handler. */
  lemma DispatchedExample()
    ensures Dispatched(map[1 := 'A', 2 := 'B'], ExamplePump) == ['A', 'B', 'A']
  {
    var handlers: map<ListenerId, char> := map[1 := 'A', 2 := 'B'];
    var pump := ExamplePump;
    assert Target(pump[0].msg) == Target(pump[2].msg) == Some(1);
    assert Target(pump[1].msg) == Some(2) && Target(pump[3].msg) == Some(99);
    assert Dispatched(handlers, pump[..1]) == ['A'] by {
      assert pump[..1][..0] == [];
    }
    assert Dispatched(handlers, pump[..2]) == ['A', 'B'] by {
      assert pump[..2][..1] == pump[..1];
    }
    assert Dispatched(handlers, pump[..3]) == ['A', 'B', 'A'] by {
      assert pump[..3][..2] == pump[..2];
    }
    assert pump[..4][..3] == pump[..3];
    assert pump[..4] == pump;
  }

  /** Callbacks A and B registered under identifiers 1 and 2; notifications 1, 2, 1 and 99 run A, B, A. */
  method DispatchInOrder() returns (invoked: seq<char>)
    ensures invoked == ['A', 'B', 'A']
  {
    var listener := new Listener<char>();
    var os := (c: Claim) => true;
    var a := listener.RegisterHotkey(MOD_CONTROL, 0x41, 'A', os);
    var b := listener.RegisterHotkey(MOD_CONTROL, 0x42, 'B', os);
    assert listener.handlers == map[1 := 'A', 2 := 'B'];
    invoked := listener.Listen(ExamplePump);
    DispatchedExample();
  }
}
