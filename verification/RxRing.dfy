/**
 * Reception: the remote fills posted buffers and returns them through the used ring, and the rx
 * interrupt drains that ring, dispatches each message and posts the buffer again.
 */
module RxRing {
  import opened Common
  import opened Wire

  /** A used-ring entry: the buffer and the length the remote reports. */
  datatype RxToken = RxToken(slot: nat, len: u32)

  /**
   * The rx virtqueue with `cap` descriptors, one taken by each buffer posted or used; the receive buffers, the
   * buffers no longer in circulation, and the callbacks made.
   * `hand` is the buffer the interrupt handler took and has not yet given back.
   */
  datatype Rx = Rx(
    cap: nat,
    bufs: seq<seq<byte>>,
    posted: seq<nat>,
    used: seq<RxToken>,
    hand: Option<RxToken>,
    dropped: seq<nat>,
    calls: seq<Call>)

  predicate Accepted(bufs: seq<seq<byte>>, tok: RxToken) {
    tok.slot < |bufs| && |bufs[tok.slot]| == BUF_SIZE && AcceptsBuf(bufs[tok.slot], tok.len)
  }

  function CallsFor(bound: map<nat, Binding>, bufs: seq<seq<byte>>, tok: RxToken): seq<Call> {
    if tok.slot < |bufs| && |bufs[tok.slot]| == BUF_SIZE then Receive(bound, bufs[tok.slot], tok.len) else []
  }

  /** No descriptor is left for another buffer. */
  predicate Full(rx: Rx) {
    |rx.posted| + |rx.used| >= rx.cap
  }

  /** `rpmsg_recv_single`: dispatch and post again, or give up on the buffer. */
  function RecvSingle(rx: Rx, bound: map<nat, Binding>, tok: RxToken, ioErr: bool): (Rx, bool) {
    if !Accepted(rx.bufs, tok) then (rx.(dropped := rx.dropped + [tok.slot]), false)
    else
      var rx1 := rx.(calls := rx.calls + CallsFor(bound, rx.bufs, tok));
      if ioErr || Full(rx) then (rx1.(dropped := rx1.dropped + [tok.slot]), false)
      else (rx1.(posted := rx1.posted + [tok.slot]), true)
  }

  // ----- one drain of the used ring -----

  /** The k-th message of a drain is handled: accepted, and no error is reported when its buffer is posted again. */
  predicate Handled(bufs: seq<seq<byte>>, used: seq<RxToken>, addErr: nat -> bool, k: nat)
    requires k < |used|
  {
    Accepted(bufs, used[k]) && !addErr(k)
  }

  /** `k` is how many messages are handled before the first that is not. */
  predicate StopsAt(bufs: seq<seq<byte>>, used: seq<RxToken>, addErr: nat -> bool, k: nat) {
    && k <= |used|
    && (forall i: nat :: i < k ==> Handled(bufs, used, addErr, i))
    && (k < |used| ==> !Handled(bufs, used, addErr, k))
  }

  function AllCalls(bound: map<nat, Binding>, bufs: seq<seq<byte>>, used: seq<RxToken>): seq<Call> {
    if used == [] then [] else AllCalls(bound, bufs, used[..|used| - 1]) + CallsFor(bound, bufs, used[|used| - 1])
  }

  function SlotsOf(used: seq<RxToken>): (r: seq<nat>)
    ensures |r| == |used|
  {
    seq(|used|, i requires 0 <= i < |used| => used[i].slot)
  }

  /** The state after a drain that stops at `k`: the messages tried are those before `k` and `k` itself. */
  function Drained(rx: Rx, bound: map<nat, Binding>, k: nat): Rx
    requires k <= |rx.used|
  {
    var tried := if k < |rx.used| then k + 1 else k;
    rx.(used := rx.used[tried..],
        posted := rx.posted + SlotsOf(rx.used[..k]),
        dropped := rx.dropped + SlotsOf(rx.used[k..tried]),
        calls := rx.calls + AllCalls(bound, rx.bufs, rx.used[..tried]))
  }

  /** The callbacks of a drain are those of the messages tried, in the order they were returned. */
  lemma {:induction false} CallsInOrder(bound: map<nat, Binding>, bufs: seq<seq<byte>>,
                                        a: seq<RxToken>, b: seq<RxToken>)
    ensures AllCalls(bound, bufs, a + b) == AllCalls(bound, bufs, a) + AllCalls(bound, bufs, b)
    decreases |b|
  {
    hide CallsFor;
    if b == [] {
      assert a + b == a;
    } else {
      assert (a + b)[..|a + b| - 1] == a + b[..|b| - 1];
      CallsInOrder(bound, bufs, a, b[..|b| - 1]);
    }
  }

  // ----- conservation, with the remote and the handler interleaved -----

  datatype Action =
    | Fill(slot: nat, bytes: seq<byte>, len: u32)              // the remote uses a posted buffer
    | GetBuf                                                   // the handler takes the oldest used buffer
    | Handle(bound: map<nat, Binding>, ioErr: bool)            // and deals with it

  function WithoutFirst(s: seq<nat>, x: nat): seq<nat> {
    if s == [] then [] else if s[0] == x then s[1..] else [s[0]] + WithoutFirst(s[1..], x)
  }

  function Step(rx: Rx, a: Action): Rx {
    match a
    case Fill(slot, bytes, len) =>
      if slot in rx.posted && slot < |rx.bufs| && |bytes| == BUF_SIZE then
        rx.(posted := WithoutFirst(rx.posted, slot), used := rx.used + [RxToken(slot, len)],
            bufs := rx.bufs[slot := bytes])
      else rx
    case GetBuf =>
      if rx.hand.None? && rx.used != [] then rx.(hand := Some(rx.used[0]), used := rx.used[1..]) else rx
    case Handle(bound, ioErr) =>
      if rx.hand.Some? then RecvSingle(rx.(hand := None), bound, rx.hand.value, ioErr).0 else rx
  }

  function Run(rx: Rx, acts: seq<Action>): Rx
    decreases |acts|
  {
    if acts == [] then rx else Run(Step(rx, acts[0]), acts[1..])
  }

  /** How many times a buffer is in circulation or dropped, over all the places it can be. */
  function Copies(rx: Rx, x: nat): nat {
    multiset(rx.posted)[x] + multiset(SlotsOf(rx.used))[x]
    + (if rx.hand.Some? && rx.hand.value.slot == x then 1 else 0) + multiset(rx.dropped)[x]
  }

  /** Messages this step gives up on: rejected, or not accepted back by the queue. */
  function Failures(rx: Rx, a: Action): nat {
    if a.Handle? && rx.hand.Some? && (!Accepted(rx.bufs, rx.hand.value) || a.ioErr || Full(rx)) then 1 else 0
  }

  lemma PushCount(s: seq<nat>, y: nat, x: nat)
    ensures multiset(s + [y])[x] == multiset(s)[x] + (if x == y then 1 else 0)
  {
    assert multiset(s + [y]) == multiset(s) + multiset{y};
  }

  lemma PopCount(s: seq<nat>, x: nat)
    requires s != []
    ensures multiset(s)[x] == multiset(s[1..])[x] + (if x == s[0] then 1 else 0)
  {
    assert s == [s[0]] + s[1..];
  }

  lemma {:induction false} WithoutFirstCount(s: seq<nat>, y: nat, x: nat)
    requires y in s
    ensures multiset(WithoutFirst(s, y))[x] + (if x == y then 1 else 0) == multiset(s)[x]
  {
    PopCount(s, x);
    if s[0] != y {
      WithoutFirstCount(s[1..], y, x);
      PopCount(WithoutFirst(s, y), x);
    }
  }

  lemma SlotsPush(used: seq<RxToken>, tok: RxToken, x: nat)
    ensures multiset(SlotsOf(used + [tok]))[x] == multiset(SlotsOf(used))[x] + (if x == tok.slot then 1 else 0)
  {
    assert SlotsOf(used + [tok]) == SlotsOf(used) + [tok.slot];
    PushCount(SlotsOf(used), tok.slot, x);
  }

  lemma SlotsPop(used: seq<RxToken>, x: nat)
    requires used != []
    ensures multiset(SlotsOf(used))[x] == multiset(SlotsOf(used[1..]))[x] + (if x == used[0].slot then 1 else 0)
  {
    assert SlotsOf(used)[1..] == SlotsOf(used[1..]);
    PopCount(SlotsOf(used), x);
  }

  lemma FillConserves(rx: Rx, a: Action, x: nat)
    requires a.Fill?
    ensures Copies(Step(rx, a), x) == Copies(rx, x)
  {
    hide SlotsOf, WithoutFirst;
    if a.slot in rx.posted {
      WithoutFirstCount(rx.posted, a.slot, x);
      SlotsPush(rx.used, RxToken(a.slot, a.len), x);
    }
  }

  lemma HandleConserves(rx: Rx, a: Action, x: nat)
    requires a.Handle?
    ensures Copies(Step(rx, a), x) == Copies(rx, x)
  {
    hide SlotsOf, WithoutFirst, CallsFor, Accepted;
    if rx.hand.Some? {
      PushCount(rx.posted, rx.hand.value.slot, x);
      PushCount(rx.dropped, rx.hand.value.slot, x);
    }
  }

  /** No step creates or loses a buffer, and dropped grows by one per failure and not otherwise. */
  lemma StepConserves(rx: Rx, a: Action, x: nat)
    ensures Copies(Step(rx, a), x) == Copies(rx, x)
    ensures |Step(rx, a).dropped| == |rx.dropped| + Failures(rx, a)
  {
    match a
    case Fill(_, _, _) => FillConserves(rx, a, x);
    case GetBuf => if rx.used != [] { SlotsPop(rx.used, x); }
    case Handle(_, _) => HandleConserves(rx, a, x);
  }

  /** Messages given up on over a run. */
  function AllFailures(rx: Rx, acts: seq<Action>): nat
    decreases |acts|
  {
    if acts == [] then 0 else Failures(rx, acts[0]) + AllFailures(Step(rx, acts[0]), acts[1..])
  }

  lemma {:induction false} RunConserves(rx: Rx, acts: seq<Action>, x: nat)
    ensures Copies(Run(rx, acts), x) == Copies(rx, x)
    ensures |Run(rx, acts).dropped| == |rx.dropped| + AllFailures(rx, acts)
    decreases |acts|
  {
    if acts != [] {
      StepConserves(rx, acts[0], x);
      RunConserves(Step(rx, acts[0]), acts[1..], x);
    }
  }

  lemma {:induction false} RunAppend(rx: Rx, a: seq<Action>, b: seq<Action>)
    ensures Run(rx, a + b) == Run(Run(rx, a), b)
    decreases |a|
  {
    hide Step;
    if a == [] {
      assert a + b == b;
    } else {
      assert (a + b)[1..] == a[1..] + b;
      RunAppend(Step(rx, a[0]), a[1..], b);
    }
  }

  predicate Sized(rx: Rx) {
    forall i :: 0 <= i < |rx.bufs| ==> |rx.bufs[i]| == BUF_SIZE
  }

  /** As set up: every buffer posted once, in order; there are no more buffers than descriptors. */
  predicate Init(rx: Rx, n: nat) {
    && |rx.bufs| == n <= rx.cap && Sized(rx) && rx.posted == seq(n, i => i)
    && rx.used == [] && rx.hand.None? && rx.dropped == [] && rx.calls == []
  }

  lemma {:induction false} PostedOnce(n: nat, x: nat)
    ensures multiset(seq(n, i => i))[x] == if x < n then 1 else 0
  {
    if n > 0 {
      PostedOnce(n - 1, x);
      assert seq(n, i => i) == seq(n - 1, i => i) + [n - 1];
      PushCount(seq(n - 1, i => i), n - 1, x);
    }
  }

  /**
   * In every run each receive buffer is in exactly one place: posted, used, in hand or dropped; and
   * dropped counts the rejected messages and failed re-adds.
   */
  lemma BuffersConserved(rx: Rx, n: nat, acts: seq<Action>, x: nat)
    requires Init(rx, n)
    ensures Copies(Run(rx, acts), x) == if x < n then 1 else 0
    ensures |Run(rx, acts).dropped| == AllFailures(rx, acts)
  {
    RunConserves(rx, acts, x);
    PostedOnce(n, x);
  }

  // ----- descriptors -----

  function Total(rx: Rx): nat {
    |rx.posted| + |rx.used| + (if rx.hand.Some? then 1 else 0) + |rx.dropped|
  }

  lemma {:induction false} WithoutFirstSize(s: seq<nat>, x: nat)
    requires x in s
    ensures |WithoutFirst(s, x)| + 1 == |s|
  {
    if s[0] != x { WithoutFirstSize(s[1..], x); }
  }

  lemma {:induction false} WithoutFirstIn(s: seq<nat>, x: nat)
    ensures forall y :: y in WithoutFirst(s, x) ==> y in s
  {
    if s != [] && s[0] != x { WithoutFirstIn(s[1..], x); }
  }

  lemma StepTotal(rx: Rx, a: Action)
    ensures Total(Step(rx, a)) == Total(rx) && Step(rx, a).cap == rx.cap
  {
    hide WithoutFirst, CallsFor, Accepted;
    if a.Fill? && a.slot in rx.posted { WithoutFirstSize(rx.posted, a.slot); }
  }

  /** With no more buffers than descriptors, giving a buffer back never lacks one. */
  lemma NeverFull(rx: Rx, tok: RxToken)
    requires Total(rx.(hand := Some(tok))) <= rx.cap
    ensures !Full(rx)
  {
  }

  /** The buffers of the messages a step, and a run, rejects. */
  function Rejects(rx: Rx, a: Action): seq<nat> {
    if a.Handle? && rx.hand.Some? && !Accepted(rx.bufs, rx.hand.value) then [rx.hand.value.slot] else []
  }

  function Rejected(rx: Rx, acts: seq<Action>): seq<nat>
    decreases |acts|
  {
    if acts == [] then [] else Rejects(rx, acts[0]) + Rejected(Step(rx, acts[0]), acts[1..])
  }

  predicate NoIoErrors(acts: seq<Action>) {
    forall i :: 0 <= i < |acts| && acts[i].Handle? ==> !acts[i].ioErr
  }

  lemma StepDrops(rx: Rx, a: Action)
    requires Total(rx) <= rx.cap && (a.Handle? ==> !a.ioErr)
    ensures Step(rx, a).dropped == rx.dropped + Rejects(rx, a)
  {
    hide Accepted, CallsFor, WithoutFirst;
    if rx.hand.Some? { NeverFull(rx.(hand := None), rx.hand.value); }
  }

  lemma {:induction false} RunDrops(rx: Rx, acts: seq<Action>)
    requires Total(rx) <= rx.cap && NoIoErrors(acts)
    ensures Run(rx, acts).dropped == rx.dropped + Rejected(rx, acts)
    decreases |acts|
  {
    hide Step, Total, Rejects;
    if acts != [] {
      StepDrops(rx, acts[0]);
      StepTotal(rx, acts[0]);
      RunDrops(Step(rx, acts[0]), acts[1..]);
    }
  }

  /** Barring reported errors, in every run the dropped buffers are those of the rejected messages, in order. */
  lemma OnlyRejectedDropped(rx: Rx, n: nat, acts: seq<Action>)
    requires Init(rx, n) && NoIoErrors(acts)
    ensures Run(rx, acts).dropped == Rejected(rx, acts)
  {
    RunDrops(rx, acts);
    assert [] + Rejected(rx, acts) == Rejected(rx, acts);
  }

  // ----- which callbacks, in which order -----

  /** A message as the remote returned it. */
  datatype Mail = Mail(bytes: seq<byte>, len: u32)

  function MailOf(bufs: seq<seq<byte>>, tok: RxToken): Mail {
    Mail(if tok.slot < |bufs| then bufs[tok.slot] else [], tok.len)
  }

  function MailCalls(bound: map<nat, Binding>, m: Mail): seq<Call> {
    if |m.bytes| == BUF_SIZE then Receive(bound, m.bytes, m.len) else []
  }

  function Mails(bufs: seq<seq<byte>>, used: seq<RxToken>): (r: seq<Mail>)
    ensures |r| == |used|
  {
    seq(|used|, i requires 0 <= i < |used| => MailOf(bufs, used[i]))
  }

  /** Returned by the remote and not yet dealt with, oldest first. */
  function InFlight(rx: Rx): seq<Mail> {
    (if rx.hand.Some? then [MailOf(rx.bufs, rx.hand.value)] else []) + Mails(rx.bufs, rx.used)
  }

  /** What one step adds to the messages returned, and the table a message is dealt with by. */
  function NewMail(rx: Rx, a: Action): seq<Mail> {
    if a.Fill? && a.slot in rx.posted && a.slot < |rx.bufs| && |a.bytes| == BUF_SIZE then [Mail(a.bytes, a.len)] else []
  }

  function NewTable(rx: Rx, a: Action): seq<map<nat, Binding>> {
    if a.Handle? && rx.hand.Some? then [a.bound] else []
  }

  function AllMail(rx: Rx, acts: seq<Action>): seq<Mail>
    decreases |acts|
  {
    if acts == [] then [] else NewMail(rx, acts[0]) + AllMail(Step(rx, acts[0]), acts[1..])
  }

  function AllTables(rx: Rx, acts: seq<Action>): seq<map<nat, Binding>>
    decreases |acts|
  {
    if acts == [] then [] else NewTable(rx, acts[0]) + AllTables(Step(rx, acts[0]), acts[1..])
  }

  /** The callbacks of the first messages, each dealt with by its table. */
  function CallsOf(mail: seq<Mail>, tables: seq<map<nat, Binding>>): seq<Call>
    requires |tables| <= |mail|
  {
    if tables == [] then [] else MailCalls(tables[0], mail[0]) + CallsOf(mail[1..], tables[1..])
  }

  /** Each buffer is in one place at most, and buffers in flight exist. */
  ghost predicate Apart(rx: Rx) {
    && (forall x: nat :: Copies(rx, x) <= 1)
    && (forall i: nat :: i < |rx.used| ==> rx.used[i].slot < |rx.bufs|)
    && (rx.hand.Some? ==> rx.hand.value.slot < |rx.bufs|)
  }

  lemma InSlots(used: seq<RxToken>, i: nat)
    requires i < |used|
    ensures multiset(SlotsOf(used))[used[i].slot] >= 1
  {
    assert SlotsOf(used)[i] == used[i].slot;
  }

  lemma FillFlight(rx: Rx, a: Action)
    requires Apart(rx) && a.Fill?
    ensures InFlight(Step(rx, a)) == InFlight(rx) + NewMail(rx, a)
  {
    if NewMail(rx, a) != [] {
      var rx' := Step(rx, a);
      assert Copies(rx, a.slot) <= 1 && multiset(rx.posted)[a.slot] >= 1;
      forall i: nat | i < |rx.used| ensures rx.used[i].slot != a.slot { InSlots(rx.used, i); }
      hide WithoutFirst, Copies, SlotsOf;
      assert Mails(rx'.bufs, rx'.used) == Mails(rx.bufs, rx.used) + [Mail(a.bytes, a.len)];
    }
  }

  lemma HandleFlight(rx: Rx, a: Action)
    requires !a.Fill?
    ensures |NewTable(rx, a)| <= |InFlight(rx)| && InFlight(Step(rx, a)) == InFlight(rx)[|NewTable(rx, a)|..]
    ensures Step(rx, a).calls == rx.calls + CallsOf(InFlight(rx), NewTable(rx, a))
  {
    if a.Handle? && rx.hand.Some? {
      assert InFlight(rx)[0] == MailOf(rx.bufs, rx.hand.value);
      assert CallsOf(InFlight(rx), [a.bound]) == MailCalls(a.bound, InFlight(rx)[0]);
      assert !Accepted(rx.bufs, rx.hand.value) ==> CallsFor(a.bound, rx.bufs, rx.hand.value) == [];
    }
  }

  lemma ApartStep(rx: Rx, a: Action)
    requires Apart(rx)
    ensures Apart(Step(rx, a))
  {
    forall x: nat ensures Copies(Step(rx, a), x) <= 1 { StepConserves(rx, a, x); }
    hide Copies, WithoutFirst, CallsFor, Accepted;
  }

  /** The oldest message first, the others after it. */
  lemma FirstMail(mail: seq<Mail>, rest: seq<Mail>, b: map<nat, Binding>, later: seq<map<nat, Binding>>)
    requires mail != [] && |later| <= |mail[1..] + rest|
    ensures CallsOf(mail, [b]) == MailCalls(b, mail[0])
    ensures CallsOf(mail + rest, [b] + later) == MailCalls(b, mail[0]) + CallsOf(mail[1..] + rest, later)
  {
    hide MailCalls;
    assert [b][1..] == [] && MailCalls(b, mail[0]) + [] == MailCalls(b, mail[0]);
    assert ([b] + later)[1..] == later && (mail + rest)[1..] == mail[1..] + rest;
  }

  lemma Assoc(a: seq<Call>, b: seq<Call>, c: seq<Call>)
    ensures a + b + c == a + (b + c)
  {
  }

  lemma {:induction false} MailInOrder(rx: Rx, acts: seq<Action>)
    requires Apart(rx)
    ensures |AllTables(rx, acts)| <= |InFlight(rx) + AllMail(rx, acts)|
    ensures Run(rx, acts).calls == rx.calls + CallsOf(InFlight(rx) + AllMail(rx, acts), AllTables(rx, acts))
    decreases |acts|
  {
    hide Step, InFlight, Apart, MailCalls;
    if acts == [] {
      assert rx.calls + [] == rx.calls;
    } else {
      var a, rx' := acts[0], Step(rx, acts[0]);
      var rest, tables := AllMail(rx', acts[1..]), AllTables(rx', acts[1..]);
      ApartStep(rx, a);
      MailInOrder(rx', acts[1..]);
      if a.Fill? {
        FillFlight(rx, a);
        CallsSame(rx, a);
        assert NewTable(rx, a) + tables == tables;
        assert InFlight(rx) + (NewMail(rx, a) + rest) == InFlight(rx') + rest;
      } else {
        HandleFlight(rx, a);
        assert NewMail(rx, a) + rest == rest;
        if NewTable(rx, a) == [] {
          assert NewTable(rx, a) + tables == tables && InFlight(rx)[0..] == InFlight(rx);
          assert rx.calls + [] == rx.calls;
        } else {
          FirstMail(InFlight(rx), rest, a.bound, tables);
          hide CallsOf;
          Assoc(rx.calls, MailCalls(a.bound, InFlight(rx)[0]), CallsOf(InFlight(rx)[1..] + rest, tables));
        }
      }
    }
  }

  lemma CallsSame(rx: Rx, a: Action)
    requires a.Fill?
    ensures Step(rx, a).calls == rx.calls
  {
  }

  /**
   * In every run, with the remote returning buffers at any time, the callbacks made are those of the messages it
   * returned, in the order it returned them, each once and with the bytes it put there.
   */
  lemma ReceivedInOrder(rx: Rx, n: nat, acts: seq<Action>)
    requires Init(rx, n)
    ensures |AllTables(rx, acts)| <= |AllMail(rx, acts)|
    ensures Run(rx, acts).calls == CallsOf(AllMail(rx, acts), AllTables(rx, acts))
  {
    forall x: nat ensures Copies(rx, x) <= 1 { PostedOnce(n, x); }
    assert InFlight(rx) == [];
    MailInOrder(rx, acts);
    assert [] + AllMail(rx, acts) == AllMail(rx, acts);
  }

  // ----- a drain is a run -----

  /** The handler's steps for the first `n` messages. */
  function DrainActs(bound: map<nat, Binding>, addErr: nat -> bool, n: nat): seq<Action> {
    if n == 0 then [] else DrainActs(bound, addErr, n - 1) + [GetBuf, Handle(bound, addErr(n - 1))]
  }

  /** The state after the first `j` messages were handled. */
  function HandledFirst(rx: Rx, bound: map<nat, Binding>, j: nat): Rx
    requires j <= |rx.used|
  {
    rx.(used := rx.used[j..], posted := rx.posted + SlotsOf(rx.used[..j]),
        calls := rx.calls + AllCalls(bound, rx.bufs, rx.used[..j]))
  }

  lemma TwoSteps(rx: Rx, a: Action, b: Action)
    ensures Run(rx, [a, b]) == Step(Step(rx, a), b)
  {
    hide Step;
    assert Run(rx, [a, b]) == Run(Step(rx, a), [b]);
    assert Run(Step(rx, a), [b]) == Run(Step(Step(rx, a), b), []);
  }

  lemma OneHandled(rx: Rx, bound: map<nat, Binding>, j: nat, addErr: bool)
    requires j < |rx.used| && rx.hand.None? && Accepted(rx.bufs, rx.used[j]) && !addErr
    requires |rx.posted| + |rx.used| <= rx.cap
    ensures Step(Step(HandledFirst(rx, bound, j), GetBuf), Handle(bound, addErr)) == HandledFirst(rx, bound, j + 1)
  {
    hide CallsFor, Accepted;
    assert rx.used[..j + 1][..j] == rx.used[..j];
    assert SlotsOf(rx.used[..j + 1]) == SlotsOf(rx.used[..j]) + [rx.used[j].slot];
    assert rx.used[j..][1..] == rx.used[j + 1..];
  }

  lemma {:induction false} FirstHandled(rx: Rx, bound: map<nat, Binding>, addErr: nat -> bool, j: nat)
    requires j <= |rx.used| && rx.hand.None? && |rx.posted| + |rx.used| <= rx.cap
    requires forall i: nat :: i < j ==> Handled(rx.bufs, rx.used, addErr, i)
    ensures Run(rx, DrainActs(bound, addErr, j)) == HandledFirst(rx, bound, j)
    decreases j
  {
    hide Step, Accepted;
    if j == 0 {
      assert rx.used[..0] == [] && rx.posted + [] == rx.posted && rx.calls + [] == rx.calls;
    } else {
      assert Handled(rx.bufs, rx.used, addErr, j - 1);
      FirstHandled(rx, bound, addErr, j - 1);
      OneHandled(rx, bound, j - 1, addErr(j - 1));
      RunAppend(rx, DrainActs(bound, addErr, j - 1), [GetBuf, Handle(bound, addErr(j - 1))]);
      TwoSteps(HandledFirst(rx, bound, j - 1), GetBuf, Handle(bound, addErr(j - 1)));
    }
  }

  /** A message that is not handled: its callback may have run, its buffer is dropped. */
  lemma OneFailed(rx: Rx, bound: map<nat, Binding>, k: nat, addErr: bool)
    requires k < |rx.used| && rx.hand.None? && !(Accepted(rx.bufs, rx.used[k]) && !addErr)
    requires rx.used[k].slot < |rx.bufs| && |rx.bufs[rx.used[k].slot]| == BUF_SIZE
    ensures Step(Step(HandledFirst(rx, bound, k), GetBuf), Handle(bound, addErr)) == Drained(rx, bound, k)
  {
    assert rx.used[..k + 1][..k] == rx.used[..k];
    assert SlotsOf(rx.used[k..k + 1]) == [rx.used[k].slot];
    assert rx.used[k..][1..] == rx.used[k + 1..];
    assert !Accepted(rx.bufs, rx.used[k]) ==> CallsFor(bound, rx.bufs, rx.used[k]) == [];
    var was := rx.calls + AllCalls(bound, rx.bufs, rx.used[..k]);
    assert rx.calls + (AllCalls(bound, rx.bufs, rx.used[..k]) + CallsFor(bound, rx.bufs, rx.used[k])) ==
           was + CallsFor(bound, rx.bufs, rx.used[k]);
    assert was + [] == was;
  }

  lemma NoneFailed(rx: Rx, bound: map<nat, Binding>)
    ensures HandledFirst(rx, bound, |rx.used|) == Drained(rx, bound, |rx.used|)
  {
    var k := |rx.used|;
    assert SlotsOf(rx.used[k..k]) == [] && rx.dropped + [] == rx.dropped;
  }

  /**
   * A drain with the remote quiet is the run in which the handler takes and handles the messages one by one,
   * so it conserves the buffers as every run does.
   */
  lemma DrainIsARun(rx: Rx, bound: map<nat, Binding>, addErr: nat -> bool, k: nat)
    requires StopsAt(rx.bufs, rx.used, addErr, k) && rx.hand.None? && |rx.posted| + |rx.used| <= rx.cap
    requires forall i :: 0 <= i < |rx.used| ==> rx.used[i].slot < |rx.bufs| && |rx.bufs[rx.used[i].slot]| == BUF_SIZE
    ensures Run(rx, DrainActs(bound, addErr, if k < |rx.used| then k + 1 else k)) == Drained(rx, bound, k)
  {
    FirstHandled(rx, bound, addErr, k);
    hide Run, Step, Accepted, AllCalls, HandledFirst, Drained, SlotsOf;
    if k < |rx.used| {
      OneFailed(rx, bound, k, addErr(k));
      RunAppend(rx, DrainActs(bound, addErr, k), [GetBuf, Handle(bound, addErr(k))]);
      TwoSteps(HandledFirst(rx, bound, k), GetBuf, Handle(bound, addErr(k)));
    } else {
      NoneFailed(rx, bound);
    }
  }

  /**
   * A drain that stops at a failure leaves the rest for the next one: two drains make the callbacks of the
   * messages they tried, in ring order.
   */
  lemma DrainsInOrder(rx: Rx, bound: map<nat, Binding>, k: nat, l: nat)
    requires k < |rx.used| && l <= |Drained(rx, bound, k).used|
    ensures var second := Drained(Drained(rx, bound, k), bound, l);
            var tried := k + 1 + (if l < |rx.used| - (k + 1) then l + 1 else l);
            second.calls == rx.calls + AllCalls(bound, rx.bufs, rx.used[..tried]) && second.used == rx.used[tried..]
  {
    hide AllCalls, SlotsOf;
    var rest := rx.used[k + 1..];
    var m := if l < |rest| then l + 1 else l;
    CallsInOrder(bound, rx.bufs, rx.used[..k + 1], rest[..m]);
    assert rx.used[..k + 1] + rest[..m] == rx.used[..k + 1 + m];
    assert rest[m..] == rx.used[k + 1 + m..];
    var a, b := AllCalls(bound, rx.bufs, rx.used[..k + 1]), AllCalls(bound, rx.bufs, rest[..m]);
    assert rx.calls + a + b == rx.calls + (a + b);
  }

  lemma {:induction false} RunFits(rx: Rx, acts: seq<Action>)
    requires Apart(rx) && Sized(rx) && Total(rx) <= rx.cap
    ensures var rx' := Run(rx, acts); Apart(rx') && Sized(rx') && Total(rx') <= rx'.cap
    decreases |acts|
  {
    if acts != [] {
      var rx' := Step(rx, acts[0]);
      assert Sized(rx');
      hide Step, Total, Apart, Sized;
      ApartStep(rx, acts[0]);
      StepTotal(rx, acts[0]);
      RunFits(rx', acts[1..]);
    }
  }

  /** After any run from set-up, a drain leads to a state that is again reached by a run. */
  lemma DrainsStayRuns(rx0: Rx, n: nat, acts: seq<Action>, bound: map<nat, Binding>, addErr: nat -> bool, k: nat)
    requires Init(rx0, n) && Run(rx0, acts).hand.None?
    requires StopsAt(Run(rx0, acts).bufs, Run(rx0, acts).used, addErr, k)
    ensures var rx := Run(rx0, acts);
            Run(rx0, acts + DrainActs(bound, addErr, if k < |rx.used| then k + 1 else k)) == Drained(rx, bound, k)
  {
    forall x: nat ensures Copies(rx0, x) <= 1 { PostedOnce(n, x); }
    RunFits(rx0, acts);
    hide Run, Step, Copies;
    var rx := Run(rx0, acts);
    DrainIsARun(rx, bound, addErr, k);
    RunAppend(rx0, acts, DrainActs(bound, addErr, if k < |rx.used| then k + 1 else k));
  }
}
