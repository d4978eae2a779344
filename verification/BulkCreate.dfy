/**
 Bulk creation: the builders' mutators call each other in a chain, each wrapped in its
 hooks, with one batch insert at the bottom.
 */
module BulkCreate {
  import opened Wrappers
  import opened AccountEntity
  import opened AccountCheck

  // ----- the protocol -----

  datatype Error = CheckFailed(builder: nat, e: CheckError) | Rejected(reason: string) | InsertFailed(message: string)

  /**
   How a hook treats the next mutator: it calls it once and answers with something made
   of its result, or it answers without calling it.  `None` stands for success.
   */
  datatype Hook = Call(answer: Option<Error> -> Option<Error>) | Skip(error: Option<Error>)

  datatype Event = Enter(builder: nat, hook: nat) | Exit(builder: nat, hook: nat) | Insert | Done(builder: nat)

  /** What the chain depends on of one builder: its hooks and whether its check fails. */
  datatype Step = Step(hooks: seq<Hook>, trouble: Option<CheckError>)

  /** One mutator of the chain: a hook around the rest, or a builder's own mutator. */
  datatype Link = Wrap(builder: nat, hook: nat, kind: Hook) | Core(builder: nat, trouble: Option<CheckError>)

  datatype Outcome = Outcome(trace: seq<Event>, error: Option<Error>)

  /** A position in the chain: hook `h` of builder `i`, or the batch insert below the last builder. */
  predicate Position(steps: seq<Step>, i: nat, h: nat) {
    if i < |steps| then h <= |steps[i].hooks| else i == |steps| && h == 0
  }

  /** The mutators from a position inwards. */
  function Chain(steps: seq<Step>, i: nat, h: nat): seq<Link>
    requires Position(steps, i, h)
    decreases |steps| - i, if i < |steps| then |steps[i].hooks| - h else 0
  {
    if i == |steps| then []
    else if h < |steps[i].hooks| then [Wrap(i, h, steps[i].hooks[h])] + Chain(steps, i, h + 1)
    else [Core(i, steps[i].trouble)] + Chain(steps, i + 1, 0)
  }

  /** The run of one link around the outcome of the rest of its chain. */
  function Around(l: Link, o: Outcome): Outcome {
    match l
    case Wrap(i, h, Call(answer)) => Outcome([Enter(i, h)] + o.trace + [Exit(i, h)], answer(o.error))
    case Wrap(i, h, Skip(e)) => Outcome([Enter(i, h), Exit(i, h)], e)
    case Core(i, Some(e)) => Outcome([], Some(CheckFailed(i, e)))
    case Core(i, None) => if o.error.Some? then o else Outcome(o.trace + [Done(i)], None)
  }

  /** The run of a chain; `reply` is how the batch insert at its bottom ends. */
  function Runs(chain: seq<Link>, reply: Option<Error>): Outcome {
    if chain == [] then Outcome([Insert], reply) else Around(chain[0], Runs(chain[1..], reply))
  }

  /** The link hands over to the rest of the chain. */
  predicate Lets(l: Link) {
    match l case Wrap(_, _, kind) => kind.Call? case Core(_, trouble) => trouble.None?
  }

  ghost predicate AllLet(chain: seq<Link>) {
    forall p :: 0 <= p < |chain| ==> Lets(chain[p])
  }

  lemma LetsFirst(chain: seq<Link>)
    requires chain != []
    ensures AllLet(chain) <==> Lets(chain[0]) && AllLet(chain[1..])
  {
    assert chain == [chain[0]] + chain[1..];
  }

  /** The link is the outermost one that does not hand over. */
  ghost predicate BlocksAt(chain: seq<Link>, p: nat) {
    p < |chain| && AllLet(chain[..p]) && !Lets(chain[p])
  }

  lemma {:induction false} FirstBlock(chain: seq<Link>)
    ensures AllLet(chain) <==> forall p: nat :: !BlocksAt(chain, p)
  {
    if !AllLet(chain) {
      var n := |chain| - 1;
      var before := chain[..n];
      FirstBlock(before);
      assert chain == before + [chain[n]];
      if AllLet(before) {
        assert BlocksAt(chain, n);
      } else {
        var p: nat :| BlocksAt(before, p);
        assert before[..p] == chain[..p];
        assert BlocksAt(chain, p);
      }
    }
  }

  // ----- whether the insert runs -----

  lemma InsertsAround(l: Link, o: Outcome)
    ensures multiset(Around(l, o).trace)[Insert] == if Lets(l) then multiset(o.trace)[Insert] else 0
  {
  }

  /** The batch insert runs at most once, and runs exactly when every hook calls on and every check succeeds. */
  lemma {:induction false} InsertOnce(chain: seq<Link>, reply: Option<Error>)
    ensures multiset(Runs(chain, reply).trace)[Insert] == if AllLet(chain) then 1 else 0
  {
    if chain != [] {
      InsertOnce(chain[1..], reply);
      InsertsAround(chain[0], Runs(chain[1..], reply));
      LetsFirst(chain);
    }
  }

  // ----- how a run ends -----

  /** What hooks that call on make, from the inside out, of a result. */
  function Answered(chain: seq<Link>, r: Option<Error>): Option<Error> {
    if chain == [] then r
    else
      var inner := Answered(chain[1..], r);
      if chain[0].Wrap? && chain[0].kind.Call? then chain[0].kind.answer(inner) else inner
  }

  /** How a run ends at a link that does not let it through. */
  function Blocked(l: Link): Option<Error>
    requires !Lets(l)
  {
    match l
    case Wrap(_, _, Skip(e)) => e
    case Core(i, trouble) => Some(CheckFailed(i, trouble.value))
  }

  /** The outer part of a chain only answers: what it answers to is the result of the inner part. */
  lemma {:induction false} OuterAnswers(chain: seq<Link>, p: nat, reply: Option<Error>)
    requires p <= |chain| && AllLet(chain[..p])
    ensures Runs(chain, reply).error == Answered(chain[..p], Runs(chain[p..], reply).error)
  {
    if p == 0 {
      assert chain[0..] == chain;
    } else {
      assert chain[..p][0] == chain[0] && chain[..p][1..] == chain[1..][..p - 1];
      LetsFirst(chain[..p]);
      OuterAnswers(chain[1..], p - 1, reply);
      assert chain[1..][p - 1..] == chain[p..];
    }
  }

  /**
   A run ends as the hooks answer to the outermost blocking link; if nothing blocks, as
   they answer to the insert.
   */
  lemma FirstBlockDecides(chain: seq<Link>, reply: Option<Error>)
    ensures AllLet(chain) ==> Runs(chain, reply).error == Answered(chain, reply)
    ensures forall p: nat :: BlocksAt(chain, p) ==> Runs(chain, reply).error == Answered(chain[..p], Blocked(chain[p]))
  {
    if AllLet(chain) {
      assert chain[..|chain|] == chain && chain[|chain|..] == [];
      OuterAnswers(chain, |chain|, reply);
    }
    forall p: nat | BlocksAt(chain, p) ensures Runs(chain, reply).error == Answered(chain[..p], Blocked(chain[p])) {
      OuterAnswers(chain, p, reply);
      assert chain[p..][0] == chain[p];
    }
  }

  /** The answer is a success exactly when what is answered to is one. */
  ghost predicate KeepsKind(h: Hook) {
    h.Call? ==> forall r :: h.answer(r).None? <==> r.None?
  }

  ghost predicate AllKeepKind(chain: seq<Link>) {
    forall p :: 0 <= p < |chain| && chain[p].Wrap? ==> KeepsKind(chain[p].kind)
  }

  lemma {:induction false} KeptKind(chain: seq<Link>, r: Option<Error>)
    requires AllKeepKind(chain)
    ensures Answered(chain, r).None? <==> r.None?
  {
    if chain != [] {
      assert chain == [chain[0]] + chain[1..];
      KeptKind(chain[1..], r);
    }
  }

  /** The run reports success although no rows were stored. */
  ghost predicate Deceives(chain: seq<Link>, reply: Option<Error>) {
    var o := Runs(chain, reply);
    o.error.None? && !(Insert in o.trace && reply.None?)
  }

  /**
   A run reports success without stored rows exactly when its hooks answer with success
   to the outermost blocking link, or to an insert that failed.
   */
  lemma DeceptionExact(chain: seq<Link>, reply: Option<Error>)
    ensures Deceives(chain, reply) <==>
            || (exists p: nat :: BlocksAt(chain, p) && Answered(chain[..p], Blocked(chain[p])).None?)
            || (AllLet(chain) && reply.Some? && Answered(chain, reply).None?)
  {
    InsertOnce(chain, reply);
    FirstBlock(chain);
    FirstBlockDecides(chain, reply);
  }

  /** One builder with a hook that answers without calling on: `Save` succeeds and stores nothing. */
  lemma DeceptionWitness()
    ensures Deceives(Chain([Step([Skip(None)], None)], 0, 0), None)
  {
    var chain := Chain([Step([Skip(None)], None)], 0, 0);
    assert chain[0] == Wrap(0, 0, Skip(None));
    assert Runs(chain, None) == Outcome([Enter(0, 0), Exit(0, 0)], None);
  }

  /**
   Where hooks keep successes and failures apart, the insert is left out of a successful
   run exactly when the outermost blocking link is a hook that answers with success.
   */
  lemma AbsorbedRun(chain: seq<Link>, reply: Option<Error>)
    requires AllKeepKind(chain)
    ensures Runs(chain, reply).error.None? && Insert !in Runs(chain, reply).trace
       <==> exists p: nat :: BlocksAt(chain, p) && chain[p].Wrap? && chain[p].kind == Skip(None)
  {
    InsertOnce(chain, reply);
    FirstBlock(chain);
    FirstBlockDecides(chain, reply);
    forall p: nat | BlocksAt(chain, p)
      ensures Runs(chain, reply).error.None? <==> chain[p].Wrap? && chain[p].kind == Skip(None)
    {
      KeptKind(chain[..p], Blocked(chain[p]));
    }
  }

  // ----- what is marked done -----

  /** The builders a run marks done: those whose own mutator is reached and gets a success back. */
  function Marked(chain: seq<Link>, reply: Option<Error>): seq<nat> {
    if chain == [] || !Lets(chain[0]) then []
    else
      var inner := Marked(chain[1..], reply);
      if chain[0].Core? && Runs(chain[1..], reply).error.None? then [chain[0].builder] + inner else inner
  }

  /** The builders marked done in a trace are exactly those listed. */
  ghost predicate DoneAre(trace: seq<Event>, builders: seq<nat>) {
    forall k: nat :: Done(k) in trace <==> k in builders
  }

  lemma {:induction false} DoneAreMarked(chain: seq<Link>, reply: Option<Error>)
    ensures DoneAre(Runs(chain, reply).trace, Marked(chain, reply))
  {
    if chain != [] {
      DoneAreMarked(chain[1..], reply);
    }
  }

  /** A builder's own mutator, reached by the run. */
  ghost predicate Reached(chain: seq<Link>, p: nat) {
    p < |chain| && chain[p].Core? && Lets(chain[p]) && AllLet(chain[..p])
  }

  ghost predicate CreatesAt(chain: seq<Link>, p: nat, k: nat, reply: Option<Error>) {
    Reached(chain, p) && chain[p].builder == k && Runs(chain[p + 1..], reply).error.None?
  }

  /** A builder is marked done exactly when its mutator is reached and the rest of the chain ends in success. */
  lemma {:induction false} DoneExact(chain: seq<Link>, k: nat, reply: Option<Error>)
    ensures Done(k) in Runs(chain, reply).trace <==> exists p: nat :: CreatesAt(chain, p, k, reply)
  {
    DoneAreMarked(chain, reply);
    MarkedExact(chain, k, reply);
  }

  lemma {:induction false} MarkedExact(chain: seq<Link>, k: nat, reply: Option<Error>)
    ensures k in Marked(chain, reply) <==> exists p: nat :: CreatesAt(chain, p, k, reply)
  {
    if chain != [] {
      var tail := chain[1..];
      MarkedExact(tail, k, reply);
      if k in Marked(chain, reply) {
        if k in Marked(tail, reply) {
          var p: nat :| CreatesAt(tail, p, k, reply);
          CreatesBelow(chain, p, k, reply);
        } else {
          assert CreatesAt(chain, 0, k, reply);
        }
      }
      if p: nat :| CreatesAt(chain, p, k, reply) {
        if p > 0 {
          CreatesBelow(chain, p - 1, k, reply);
        }
      }
    }
  }

  lemma CreatesBelow(chain: seq<Link>, p: nat, k: nat, reply: Option<Error>)
    requires chain != []
    ensures CreatesAt(chain, p + 1, k, reply) <==> Lets(chain[0]) && CreatesAt(chain[1..], p, k, reply)
  {
    ReachedBelow(chain, p);
    if p + 1 < |chain| {
      assert chain[p + 2..] == chain[1..][p + 1..];
    }
  }

  lemma ReachedBelow(chain: seq<Link>, p: nat)
    requires chain != []
    ensures Reached(chain, p + 1) <==> Lets(chain[0]) && Reached(chain[1..], p)
  {
    if p + 1 < |chain| {
      assert chain[..p + 1][0] == chain[0] && chain[..p + 1][1..] == chain[1..][..p];
      LetsFirst(chain[..p + 1]);
    }
  }

  /** What the hooks above a reached builder make of its result is a success exactly when that is one. */
  ghost predicate OutcomeKept(chain: seq<Link>, p: nat, reply: Option<Error>)
    requires p < |chain|
  {
    KeptAt(chain, p, Runs(chain[p + 1..], reply).error)
  }

  /** The hooks above a position turn this result into one of the same kind. */
  ghost predicate KeptAt(chain: seq<Link>, p: nat, r: Option<Error>)
    requires p <= |chain|
  {
    Answered(chain[..p], r).None? <==> r.None?
  }

  /** On success every reached builder is marked done, on failure none is. */
  ghost predicate AllOrNone(chain: seq<Link>, reply: Option<Error>) {
    var o := Runs(chain, reply);
    forall k: nat :: Done(k) in o.trace <==> o.error.None? && exists p: nat :: Reached(chain, p) && chain[p].builder == k
  }

  lemma AllOrNoneByRun(chain: seq<Link>, reply: Option<Error>)
    requires OutermostFirst(chain)
    ensures AllOrNone(chain, reply) <==> forall p: nat :: Reached(chain, p) ==> OutcomeKept(chain, p, reply)
  {
    var o := Runs(chain, reply);
    forall p: nat | Reached(chain, p)
      ensures OutcomeKept(chain, p, reply) <==> (Done(chain[p].builder) in o.trace <==> o.error.None?)
    {
      ReachedDone(chain, p, reply);
    }
    forall k: nat ensures Done(k) in o.trace ==> exists p: nat :: Reached(chain, p) && chain[p].builder == k {
      DoneExact(chain, k, reply);
      if p: nat :| CreatesAt(chain, p, k, reply) {
        assert Reached(chain, p);
      }
    }
  }

  lemma CoreUnique(chain: seq<Link>, p: nat, q: nat)
    requires OutermostFirst(chain) && p < |chain| && q < |chain|
    requires chain[p].Core? && chain[q].Core? && chain[p].builder == chain[q].builder
    ensures p == q
  {
  }

  lemma ReachedDone(chain: seq<Link>, p: nat, reply: Option<Error>)
    requires OutermostFirst(chain) && Reached(chain, p)
    ensures Done(chain[p].builder) in Runs(chain, reply).trace <==> Runs(chain[p + 1..], reply).error.None?
    ensures Runs(chain, reply).error == Answered(chain[..p], Runs(chain[p + 1..], reply).error)
  {
    DoneExact(chain, chain[p].builder, reply);
    if q: nat :| CreatesAt(chain, q, chain[p].builder, reply) {
      CoreUnique(chain, p, q);
    }
    if Runs(chain[p + 1..], reply).error.None? {
      assert CreatesAt(chain, p, chain[p].builder, reply);
    }
    OuterAnswers(chain, p, reply);
    assert chain[p..][0] == chain[p] && chain[p..][1..] == chain[p + 1..];
  }

  /** Below a position above the block, the rest of the chain blocks at the same link. */
  lemma BlocksBelow(chain: seq<Link>, p: nat, b: nat)
    requires p < b && BlocksAt(chain, b)
    ensures var rest, j := chain[p + 1..], b - p - 1;
            BlocksAt(rest, j) && rest[..j] == chain[p + 1..b] && rest[j] == chain[b]
  {
    var rest, j := chain[p + 1..], b - p - 1;
    assert rest[..j] == chain[p + 1..b];
    assert forall q :: 0 <= q < j ==> rest[..j][q] == chain[..b][p + 1 + q];
  }

  /** Without a block every builder is reached; otherwise those above the block are. */
  lemma ReachedAbove(chain: seq<Link>, p: nat)
    requires p < |chain| && chain[p].Core?
    ensures AllLet(chain) ==> Reached(chain, p)
    ensures forall b: nat :: BlocksAt(chain, b) ==> (Reached(chain, p) <==> p < b)
  {
    forall b: nat | BlocksAt(chain, b) ensures Reached(chain, p) <==> p < b {
      if p < b {
        assert Lets(chain[..b][p]);
        assert forall q :: 0 <= q < p ==> chain[..p][q] == chain[..b][q];
      } else if b < p {
        assert chain[..p][b] == chain[b];
      }
    }
  }

  /** What the rest of a chain ends in, from its hooks, its checks and the reply. */
  lemma EndsBelow(chain: seq<Link>, p: nat, reply: Option<Error>)
    requires p < |chain|
    ensures AllLet(chain) ==> Runs(chain[p + 1..], reply).error == Answered(chain[p + 1..], reply)
    ensures forall b: nat :: BlocksAt(chain, b) && p < b ==>
              Runs(chain[p + 1..], reply).error == Answered(chain[p + 1..b], Blocked(chain[b]))
  {
    FirstBlockDecides(chain[p + 1..], reply);
    if AllLet(chain) {
      var rest := chain[p + 1..];
      assert forall q :: 0 <= q < |rest| ==> rest[q] == chain[p + 1 + q];
    }
    forall b: nat | BlocksAt(chain, b) && p < b
      ensures Runs(chain[p + 1..], reply).error == Answered(chain[p + 1..b], Blocked(chain[b]))
    {
      BlocksBelow(chain, p, b);
    }
  }

  /**
   Marking is all or none exactly when, above every builder that is reached, the hooks
   turn what the hooks below it make of the insert's reply, or of the outermost block,
   into a result of the same kind.
   */
  lemma AllOrNoneExact(chain: seq<Link>, reply: Option<Error>)
    requires OutermostFirst(chain)
    ensures AllLet(chain) ==>
              (AllOrNone(chain, reply) <==>
               forall p: nat :: p < |chain| && chain[p].Core? ==> KeptAt(chain, p, Answered(chain[p + 1..], reply)))
    ensures forall b: nat :: BlocksAt(chain, b) ==>
              (AllOrNone(chain, reply) <==>
               forall p: nat :: p < b && chain[p].Core? ==> KeptAt(chain, p, Answered(chain[p + 1..b], Blocked(chain[b]))))
  {
    AllOrNoneByRun(chain, reply);
    forall p: nat | p < |chain| && chain[p].Core?
      ensures AllLet(chain) ==> Reached(chain, p) && (OutcomeKept(chain, p, reply) <==> KeptAt(chain, p, Answered(chain[p + 1..], reply)))
    {
      ReachedAbove(chain, p);
      EndsBelow(chain, p, reply);
    }
    forall b: nat | BlocksAt(chain, b)
      ensures AllOrNone(chain, reply) <==>
              forall p: nat :: p < b && chain[p].Core? ==> KeptAt(chain, p, Answered(chain[p + 1..b], Blocked(chain[b])))
    {
      forall p: nat | p < |chain| && chain[p].Core?
        ensures Reached(chain, p) <==> p < b
        ensures p < b ==> (OutcomeKept(chain, p, reply) <==> KeptAt(chain, p, Answered(chain[p + 1..b], Blocked(chain[b]))))
      {
        ReachedAbove(chain, p);
        EndsBelow(chain, p, reply);
      }
    }
  }

  /** Hooks that keep successes and failures apart mark all reached builders or none. */
  lemma DoneAllOrNone(chain: seq<Link>, reply: Option<Error>)
    requires OutermostFirst(chain) && AllKeepKind(chain)
    ensures AllOrNone(chain, reply)
  {
    forall p: nat | Reached(chain, p) ensures OutcomeKept(chain, p, reply) {
      KeptKind(chain[..p], Runs(chain[p + 1..], reply).error);
    }
    AllOrNoneByRun(chain, reply);
  }

  /** A hook that fails after its builder was created: `Save` fails, yet the row is stored and the mutation marked done. */
  lemma DoneThenFailed(answer: Option<Error> -> Option<Error>)
    requires answer(None).Some?
    ensures var o := Runs(Chain([Step([Call(answer)], None)], 0, 0), None);
            o.error == answer(None) && Insert in o.trace && Done(0) in o.trace
  {
    var steps := [Step([Call(answer)], None)];
    var chain := [Wrap(0, 0, Call(answer)), Core(0, None)];
    assert Chain(steps, 1, 0) == [] && Chain(steps, 0, 1) == [Core(0, None)];
    assert Chain(steps, 0, 0) == chain;
    assert chain[1..] == [Core(0, None)] && [Core(0, None)][1..] == [];
    assert Runs([], None) == Outcome([Insert], None);
    assert Runs([Core(0, None)], None) == Outcome([Insert] + [Done(0)], None);
    assert Runs(chain, None) == Around(chain[0], Outcome([Insert] + [Done(0)], None));
  }

  /** At every moment of a run, whatever the hooks do, the builders marked done are the tail of those that will be. */
  lemma {:induction false} DoneIsTail(chain: seq<Link>, reply: Option<Error>, m: nat) returns (j: nat)
    requires m <= |Runs(chain, reply).trace|
    ensures j <= |Marked(chain, reply)| && DoneAre(Runs(chain, reply).trace[..m], Marked(chain, reply)[j..])
  {
    var t := Runs(chain, reply).trace;
    if m == |t| {
      DoneAreMarked(chain, reply);
      assert t[..m] == t;
      j := 0;
    } else if m == 0 {
      j := |Marked(chain, reply)|;
    } else {
      var inner := Runs(chain[1..], reply).trace;
      match chain[0] {
        case Wrap(i, h, Call(_)) =>
          assert t[..m] == [Enter(i, h)] + inner[..m - 1];
          j := DoneIsTail(chain[1..], reply, m - 1);
        case Wrap(i, h, Skip(_)) =>
          assert t[..m] == [Enter(i, h)];
          j := 0;
        case Core(i, _) =>
          assert t[..m] == inner[..m];
          j := DoneIsTail(chain[1..], reply, m);
          if Runs(chain[1..], reply).error.None? {
            assert Marked(chain, reply)[j + 1..] == Marked(chain[1..], reply)[j..];
            j := j + 1;
          }
      }
    }
  }

  // ----- the shape of the trace -----

  /** Replays a trace on a stack of entered hooks; an exit must close the hook entered last. */
  function Replay(trace: seq<Event>, stack: seq<Event>): Option<seq<Event>> {
    if trace == [] then Some(stack)
    else
      match trace[0]
      case Enter(i, h) => Replay(trace[1..], stack + [Enter(i, h)])
      case Exit(i, h) =>
        if stack != [] && stack[|stack| - 1] == Enter(i, h) then Replay(trace[1..], stack[..|stack| - 1]) else None
      case _ => Replay(trace[1..], stack)
  }

  /** Hooks are entered and left like brackets, whatever they do and however the run ends. */
  lemma {:induction false} WellNested(chain: seq<Link>, reply: Option<Error>, rest: seq<Event>, stack: seq<Event>)
    ensures Replay(Runs(chain, reply).trace + rest, stack) == Replay(rest, stack)
  {
    var t := Runs(chain, reply).trace;
    if chain == [] {
      assert (t + rest)[1..] == rest;
    } else {
      var o := Runs(chain[1..], reply);
      match chain[0]
      case Wrap(i, h, kind) =>
        var pushed := stack + [Enter(i, h)];
        assert pushed[..|stack|] == stack;
        var inner := if kind.Call? then o.trace else [];
        assert t + rest == [Enter(i, h)] + (inner + ([Exit(i, h)] + rest));
        assert ([Exit(i, h)] + rest)[1..] == rest;
        if kind.Call? {
          WellNested(chain[1..], reply, [Exit(i, h)] + rest, pushed);
        } else {
          assert inner + ([Exit(i, h)] + rest) == [Exit(i, h)] + rest;
        }
      case Core(i, Some(e)) =>
        assert t + rest == rest;
      case Core(i, None) =>
        var tail := if o.error.Some? then rest else [Done(i)] + rest;
        assert t + rest == o.trace + tail;
        WellNested(chain[1..], reply, tail, stack);
        assert ([Done(i)] + rest)[1..] == rest;
    }
  }

  /** Every hook of the chain, entered from the outside in. */
  function Opens(chain: seq<Link>): seq<Event> {
    if chain == [] then []
    else (if chain[0].Wrap? then [Enter(chain[0].builder, chain[0].hook)] else []) + Opens(chain[1..])
  }

  /** The hooks that a sequence of closing events leaves, outermost first. */
  function Left(trace: seq<Event>): seq<Event> {
    if trace == [] then []
    else (if trace[|trace| - 1].Exit? then [Enter(trace[|trace| - 1].builder, trace[|trace| - 1].hook)] else [])
         + Left(trace[..|trace| - 1])
  }

  /** How a link that lets the run through closes. */
  function Closing(l: Link): Event {
    if l.Wrap? then Exit(l.builder, l.hook) else Done(l.builder)
  }

  lemma SuccessAround(l: Link, opens: seq<Event>, closes: seq<Event>)
    requires Lets(l) && (l.Wrap? ==> KeepsKind(l.kind))
    ensures var enter := if l.Wrap? then [Enter(l.builder, l.hook)] else [];
            Around(l, Outcome(opens + [Insert] + closes, None)) == Outcome((enter + opens) + [Insert] + (closes + [Closing(l)]), None)
  {
    if l.Wrap? {
      var e := Enter(l.builder, l.hook);
      assert [e] + (opens + [Insert] + closes) + [Closing(l)] == ([e] + opens) + [Insert] + (closes + [Closing(l)]);
    } else {
      assert opens + [Insert] + closes + [Closing(l)] == ([] + opens) + [Insert] + (closes + [Closing(l)]);
    }
  }

  lemma LeftMore(closes: seq<Event>, l: Link)
    ensures Left(closes + [Closing(l)]) == (if l.Wrap? then [Enter(l.builder, l.hook)] else []) + Left(closes)
  {
    assert (closes + [Closing(l)])[..|closes|] == closes;
  }

  /** A successful run enters every hook, inserts, then leaves the hooks in mirror order, marking builders done on the way out. */
  lemma {:induction false} SuccessfulTrace(chain: seq<Link>) returns (closes: seq<Event>)
    requires AllLet(chain) && AllKeepKind(chain)
    ensures Runs(chain, None) == Outcome(Opens(chain) + [Insert] + closes, None)
    ensures Left(closes) == Opens(chain)
    ensures forall e :: e in closes ==> e.Exit? || e.Done?
  {
    if chain == [] {
      closes := [];
    } else {
      LetsFirst(chain);
      assert chain == [chain[0]] + chain[1..];
      var inner := SuccessfulTrace(chain[1..]);
      SuccessAround(chain[0], Opens(chain[1..]), inner);
      LeftMore(inner, chain[0]);
      closes := inner + [Closing(chain[0])];
    }
  }

  // ----- chains of builders -----

  /** `l` belongs further out than `m`: a lower builder, or the same builder and a lower hook, hooks before the core. */
  predicate Outer(l: Link, m: Link) {
    l.builder < m.builder || (l.builder == m.builder && l.Wrap? && (m.Core? || l.hook < m.hook))
  }

  /** The link is one of the steps, at or inside the position. */
  ghost predicate LinkOf(l: Link, steps: seq<Step>, i: nat, h: nat) {
    && l.builder < |steps|
    && (match l
        case Wrap(k, g, kind) => g < |steps[k].hooks| && kind == steps[k].hooks[g] && (k > i || (k == i && g >= h))
        case Core(k, trouble) => k >= i && trouble == steps[k].trouble)
  }

  ghost predicate OutermostFirst(chain: seq<Link>) {
    forall a, b :: 0 <= a < b < |chain| ==> Outer(chain[a], chain[b])
  }

  /** A position that is not the insert is its first link and the position below it. */
  lemma Below(steps: seq<Step>, i: nat, h: nat) returns (head: Link, i': nat, h': nat)
    requires Position(steps, i, h) && i < |steps|
    ensures Position(steps, i', h') && i <= i'
    ensures Chain(steps, i, h) == [head] + Chain(steps, i', h')
    ensures i' == i ==> h < |steps[i].hooks| && h' == h + 1 && head == Wrap(i, h, steps[i].hooks[h])
    ensures i' != i ==> h == |steps[i].hooks| && i' == i + 1 && h' == 0 && head == Core(i, steps[i].trouble)
  {
    if h < |steps[i].hooks| {
      head, i', h' := Wrap(i, h, steps[i].hooks[h]), i, h + 1;
    } else {
      head, i', h' := Core(i, steps[i].trouble), i + 1, 0;
    }
  }

  /**
   The chain holds every hook and every builder once, hook 0 outermost of its builder
   and builder i around builder i + 1.
   */
  lemma {:induction false} ChainOutermostFirst(steps: seq<Step>, i: nat, h: nat)
    requires Position(steps, i, h)
    ensures OutermostFirst(Chain(steps, i, h))
    ensures forall l :: l in Chain(steps, i, h) <==> i < |steps| && LinkOf(l, steps, i, h)
    decreases |Chain(steps, i, h)|
  {
    if i < |steps| {
      var head, i', h' := Below(steps, i, h);
      var chain, inner := Chain(steps, i, h), Chain(steps, i', h');
      ChainOutermostFirst(steps, i', h');
      forall b | 0 <= b < |inner| ensures Outer(head, inner[b]) {
        assert inner[b] in inner;
      }
      assert forall l :: l in chain <==> l == head || l in inner;
    }
  }

  lemma {:induction false} MarkedInside(steps: seq<Step>, i: nat, h: nat, reply: Option<Error>)
    requires Position(steps, i, h)
    ensures forall k :: k in Marked(Chain(steps, i, h), reply) ==> i <= k < |steps|
    decreases |Chain(steps, i, h)|
  {
    if i < |steps| {
      var head, i', h' := Below(steps, i, h);
      assert Chain(steps, i, h)[1..] == Chain(steps, i', h');
      MarkedInside(steps, i', h', reply);
    }
  }

  /** A run in which every part succeeds marks every builder from its position on, in order. */
  lemma {:induction false} MarkedAll(steps: seq<Step>, i: nat, h: nat)
    requires Position(steps, i, h)
    requires AllLet(Chain(steps, i, h)) && AllKeepKind(Chain(steps, i, h))
    ensures Runs(Chain(steps, i, h), None).error == Answered(Chain(steps, i, h), None)
    ensures |Marked(Chain(steps, i, h), None)| == |steps| - i
    ensures forall k :: 0 <= k < |steps| - i ==> Marked(Chain(steps, i, h), None)[k] == i + k
    decreases |Chain(steps, i, h)|
  {
    FirstBlockDecides(Chain(steps, i, h), None);
    if i < |steps| {
      var head, i', h' := Below(steps, i, h);
      var chain := Chain(steps, i, h);
      assert chain[1..] == Chain(steps, i', h');
      LetsFirst(chain);
      assert forall p :: 0 <= p < |chain| - 1 ==> chain[1..][p] == chain[p + 1];
      MarkedAll(steps, i', h');
      KeptKind(chain[1..], None);
    }
  }

  // ----- what a caller of Save can rely on -----

  /** Every hook calls on and keeps successes and failures apart. */
  ghost predicate OnlyCalls(steps: seq<Step>) {
    forall k, g :: 0 <= k < |steps| && 0 <= g < |steps[k].hooks| ==> steps[k].hooks[g].Call? && KeepsKind(steps[k].hooks[g])
  }

  /** Every hook calls on and returns what it got. */
  ghost predicate OnlyPass(steps: seq<Step>) {
    forall k, g :: 0 <= k < |steps| && 0 <= g < |steps[k].hooks| ==>
      steps[k].hooks[g].Call? && forall r :: steps[k].hooks[g].answer(r) == r
  }

  ghost predicate AllCall(chain: seq<Link>) {
    forall p :: 0 <= p < |chain| && chain[p].Wrap? ==> chain[p].kind.Call?
  }

  lemma ChainCalls(steps: seq<Step>)
    requires OnlyCalls(steps)
    ensures AllKeepKind(Chain(steps, 0, 0)) && OutermostFirst(Chain(steps, 0, 0)) && AllCall(Chain(steps, 0, 0))
    ensures AllLet(Chain(steps, 0, 0)) <==> ChecksPass(steps)
  {
    var chain := Chain(steps, 0, 0);
    ChainOutermostFirst(steps, 0, 0);
    assert forall p :: 0 <= p < |chain| ==> chain[p] in chain;
    forall k | 0 <= k < |steps| && AllLet(chain) ensures steps[k].trouble.None? {
      assert Core(k, steps[k].trouble) in chain;
      var p :| 0 <= p < |chain| && chain[p] == Core(k, steps[k].trouble);
      assert Lets(chain[p]);
    }
  }

  ghost predicate ChecksPass(steps: seq<Step>) {
    forall k :: 0 <= k < |steps| ==> steps[k].trouble.None?
  }

  /**
   With hooks that call on and keep successes and failures apart, at every moment the
   done mutations are those of the last builders of the list, from some builder on.
   */
  lemma DoneIsSuffix(steps: seq<Step>, reply: Option<Error>, m: nat) returns (j: nat)
    requires OnlyCalls(steps) && m <= |Runs(Chain(steps, 0, 0), reply).trace|
    ensures j <= |steps|
    ensures forall k: nat :: Done(k) in Runs(Chain(steps, 0, 0), reply).trace[..m] <==> j <= k < |steps|
  {
    var chain := Chain(steps, 0, 0);
    var marked := Marked(chain, reply);
    ChainCalls(steps);
    FirstBlock(chain);
    FirstBlockDecides(chain, reply);
    j := DoneIsTail(chain, reply, m);
    if AllLet(chain) && reply.None? {
      MarkedAll(steps, 0, 0);
      assert forall k: nat :: k in marked[j..] <==> j <= k < |steps| by {
        forall k: nat | j <= k < |steps| ensures k in marked[j..] {
          assert marked[j..][k - j] == k;
        }
      }
    } else {
      NoneMarked(chain, reply);
      assert marked[j..] == [];
      j := |steps|;
    }
  }

  /** A failed run of hooks that keep failures marks nothing. */
  lemma NoneMarked(chain: seq<Link>, reply: Option<Error>)
    requires OutermostFirst(chain) && AllKeepKind(chain) && AllCall(chain)
    requires !AllLet(chain) || reply.Some?
    ensures Runs(chain, reply).error.Some? && Marked(chain, reply) == []
  {
    FirstBlock(chain);
    FirstBlockDecides(chain, reply);
    if AllLet(chain) {
      KeptKind(chain, reply);
    } else {
      var p: nat :| BlocksAt(chain, p);
      KeptKind(chain[..p], Blocked(chain[p]));
    }
    DoneAllOrNone(chain, reply);
    DoneAreMarked(chain, reply);
    assert forall k :: k in Marked(chain, reply) ==> Done(k) in Runs(chain, reply).trace;
  }

  ghost predicate AllPass(chain: seq<Link>) {
    forall p :: 0 <= p < |chain| && chain[p].Wrap? ==> chain[p].kind.Call? && forall r :: chain[p].kind.answer(r) == r
  }

  lemma {:induction false} PassesAnswer(chain: seq<Link>, r: Option<Error>)
    requires AllPass(chain)
    ensures Answered(chain, r) == r
  {
    if chain != [] {
      assert chain == [chain[0]] + chain[1..];
      PassesAnswer(chain[1..], r);
    }
  }

  lemma ChainPasses(steps: seq<Step>)
    requires OnlyPass(steps)
    ensures AllPass(Chain(steps, 0, 0))
  {
    ChainOutermostFirst(steps, 0, 0);
    assert forall p :: 0 <= p < |Chain(steps, 0, 0)| ==> Chain(steps, 0, 0)[p] in Chain(steps, 0, 0);
  }

  /**
   Bulk creation with hooks that pass on: one insert if and only if every check passes;
   otherwise the error of the lowest failing builder; all marked on success, none on failure.
   */
  lemma PassThroughSave(steps: seq<Step>, reply: Option<Error>)
    requires OnlyPass(steps)
    ensures var o := Runs(Chain(steps, 0, 0), reply);
            && multiset(o.trace)[Insert] == (if ChecksPass(steps) then 1 else 0)
            && (ChecksPass(steps) ==> o.error == reply)
            && (forall k :: 0 <= k < |steps| && steps[k].trouble.Some? && ChecksPass(steps[..k]) ==>
                  o.error == Some(CheckFailed(k, steps[k].trouble.value)))
            && (forall k: nat :: Done(k) in o.trace <==> o.error.None? && k < |steps|)
  {
    var chain := Chain(steps, 0, 0);
    ChainCalls(steps);
    InsertOnce(chain, reply);
    FirstBlockDecides(chain, reply);
    ChainPasses(steps);
    PassesAnswer(chain, reply);
    MarksAll(steps, reply);
    forall k | 0 <= k < |steps| && steps[k].trouble.Some? && ChecksPass(steps[..k])
      ensures Runs(chain, reply).error == Some(CheckFailed(k, steps[k].trouble.value))
    {
      LowestFailure(steps, k, reply);
    }
  }

  lemma MarksAll(steps: seq<Step>, reply: Option<Error>)
    requires OnlyCalls(steps)
    ensures var o := Runs(Chain(steps, 0, 0), reply);
            forall k: nat :: Done(k) in o.trace <==> o.error.None? && k < |steps|
  {
    var chain := Chain(steps, 0, 0);
    ChainCalls(steps);
    FirstBlockDecides(chain, reply);
    DoneAreMarked(chain, reply);
    if AllLet(chain) && reply.None? {
      MarkedAll(steps, 0, 0);
      KeptKind(chain, reply);
      MarkedInside(steps, 0, 0, reply);
      forall k: nat | k < |steps| ensures k in Marked(chain, reply) {
        assert Marked(chain, reply)[k] == k;
      }
    } else {
      NoneMarked(chain, reply);
    }
  }

  lemma LowestFailure(steps: seq<Step>, k: nat, reply: Option<Error>)
    requires OnlyPass(steps) && k < |steps| && steps[k].trouble.Some? && ChecksPass(steps[..k])
    ensures Runs(Chain(steps, 0, 0), reply).error == Some(CheckFailed(k, steps[k].trouble.value))
  {
    var chain := Chain(steps, 0, 0);
    ChainOutermostFirst(steps, 0, 0);
    FirstBlockDecides(chain, reply);
    assert Core(k, steps[k].trouble) in chain;
    var p :| 0 <= p < |chain| && chain[p] == Core(k, steps[k].trouble);
    forall q | 0 <= q < p ensures Lets(chain[..p][q]) {
      assert chain[q] in chain && Outer(chain[q], chain[p]);
      assert chain[q].Core? ==> steps[..k][chain[q].builder].trouble.None?;
    }
    assert BlocksAt(chain, p);
    ChainPasses(steps);
    PassesAnswer(chain[..p], Blocked(chain[p]));
  }

  /** A link that hands over, around the rest of its chain. */
  lemma AroundRest(chain: seq<Link>, reply: Option<Error>)
    requires chain != [] && Lets(chain[0])
    ensures var l, o := chain[0], Runs(chain[1..], reply);
            && Runs(chain, reply) == Around(l, o)
            && Marked(chain, reply) == (if l.Core? && o.error.None? then [l.builder] else []) + Marked(chain[1..], reply)
            && (AllLet(chain) <==> AllLet(chain[1..]))
  {
    LetsFirst(chain);
  }

  lemma TraceAround(before: seq<Event>, i: nat, h: nat, answer: Option<Error> -> Option<Error>, o: Outcome)
    ensures before + [Enter(i, h)] + o.trace + [Exit(i, h)] == before + Around(Wrap(i, h, Call(answer)), o).trace
  {
  }

  // ----- the builders and Save -----

  /** A create builder's hooks; the changes its setters collected are held by the bulk builder. */
  datatype AccountCreate = AccountCreate(hooks: seq<Hook>)

  /** A row spec and the id the driver put into it. */
  datatype Filled = Filled(spec: CreateSpec, id: Option<int>)

  /** The driver's batch insert: an id per row, where it reports one, or an error. */
  datatype Driver = Driver(insert: seq<CreateSpec> -> Result<seq<Option<int>>, string>)
  {
    ghost predicate Valid() {
      forall specs :: insert(specs).Ok? ==> |insert(specs).value| == |specs|
    }
  }

  function Reply(d: Driver, specs: seq<CreateSpec>): Option<Error> {
    match d.insert(specs) case Ok(_) => None case Err(m) => Some(InsertFailed(m))
  }

  /** What a builder contributes: its fields after `defaults`, and what check and `createSpec` make of them. */
  datatype Job = Job(changes: Changes, trouble: Option<CheckError>, spec: CreateSpec, node: Slots)

  function JobOf(c: Changes, rt: Runtime): Job {
    Job(c, Verdict(c.fields, RequiredOrder(), rt), SpecOf(c), NodeOf(c))
  }

  ghost predicate Made(job: Job, rt: Runtime) {
    job == JobOf(job.changes, rt) && WellTyped(job.changes)
  }

  ghost predicate AllMade(jobs: seq<Job>, rt: Runtime) {
    forall k {:trigger Made(jobs[k], rt)} :: 0 <= k < |jobs| ==> Made(jobs[k], rt)
  }

  /** A returned entity, with the id the insert reported. */
  function Final(job: Job, id: Option<int>): Slots {
    match id case None => job.node case Some(n) => job.node[Id := Is(Number(n))]
  }

  /** The id a node has after the insert: the driver's, or zero where it reports none. */
  function IdOr0(id: Option<int>): int {
    match id case None => 0 case Some(n) => n
  }

  lemma FinalId(job: Job, id: Option<int>, rt: Runtime)
    requires Made(job, rt)
    ensures Get(Final(job, id), Id) == Is(Number(IdOr0(id)))
  {
    NodeOfSlots(job.changes);
    assert Id !in job.changes.fields;
  }

  /** The fields of a created entity are those its row reads back with. */
  lemma FinalSlots(job: Job, id: int, rt: Runtime)
    requires Made(job, rt)
    ensures forall f :: Get(Final(job, Some(id)), f) == Returned(job.changes, id, f)
  {
    NodeOfSlots(job.changes);
  }

  /**
   What `Save` returns for a builder is what reading its stored row gives: scanning the
   row with any column list, in any order and with repetitions, yields on every listed
   column the field of the returned entity.
   */
  lemma SavedEqualsReadBack(job: Job, id: int, rt: Runtime, columns: seq<Column>, values: seq<Holder>, codec: Codec)
    requires Made(job, rt) && codec.Sound()
    ensures TypedSpec(SpecOf(job.changes).fields) && job.spec == SpecOf(job.changes)
    ensures ScannedRow(columns, values, job.changes, id, codec) ==>
              var r := AssignAll(Node(map[], map[]), columns, values, codec);
              r.Ok? && forall f :: Known(f) in columns ==> Get(r.value.slots, f) == Get(Final(job, Some(id)), f)
  {
    FinalSlots(job, id, rt);
    CreatedEqualsReadBack(columns, values, job.changes, id, codec);
  }

  function Specs(jobs: seq<Job>): (s: seq<CreateSpec>)
    ensures |s| == |jobs|
  {
    seq(|jobs|, k requires 0 <= k < |jobs| => jobs[k].spec)
  }

  /** What the chain depends on of the builders. */
  function Steps(builders: seq<AccountCreate>, jobs: seq<Job>): (s: seq<Step>)
    requires |builders| == |jobs|
    ensures |s| == |builders|
  {
    seq(|builders|, k requires 0 <= k < |builders| => Step(builders[k].hooks, jobs[k].trouble))
  }

  class AccountCreateBulk {
    const builders: seq<AccountCreate>
    const runtime: Runtime
    const driver: Driver
    // The slices `Save` shares between the mutators; `marks` holds the id of each mutation marked done.
    const nodes: array<Option<Slots>>
    const specs: array<Option<Filled>>
    const marks: array<Option<int>>
    var changes: seq<Changes>
    ghost var trace: seq<Event>

    constructor (builders: seq<AccountCreate>, changes: seq<Changes>, runtime: Runtime, driver: Driver)
      requires |builders| == |changes|
      ensures this.builders == builders && this.runtime == runtime && this.driver == driver
      ensures this.changes == changes && trace == []
      ensures Valid() && fresh(nodes) && fresh(specs) && fresh(marks)
      ensures forall k :: 0 <= k < |builders| ==> marks[k] == None
    {
      this.builders, this.runtime, this.driver := builders, runtime, driver;
      this.changes := changes;
      nodes := new Option<Slots>[|builders|](_ => None);
      specs := new Option<Filled>[|builders|](_ => None);
      marks := new Option<int>[|builders|](_ => None);
      trace := [];
    }

    predicate Valid() {
      && nodes.Length == specs.Length == marks.Length == |builders|
      && nodes as object != specs && nodes as object != marks && specs as object != marks
    }

    /** The id the run of `chain` gives to row `k`: the driver's, if the insert is reached and succeeds. */
    ghost function Given(jobs: seq<Job>, chain: seq<Link>, k: nat): Option<int>
      requires driver.Valid() && k < |jobs|
    {
      if AllLet(chain) && driver.insert(Specs(jobs)).Ok? then driver.insert(Specs(jobs)).value[k] else None
    }

    /** No mutation is marked yet, and the rows above position `i` are built. */
    ghost predicate Ready(i: nat, jobs: seq<Job>)
      reads nodes, specs, marks, this`changes
    {
      && Valid() && |jobs| == |builders| == |changes| && i <= |builders|
      && (forall k :: 0 <= k < |builders| ==> changes[k] == jobs[k].changes && marks[k] == None)
      && (forall k :: 0 <= k < i ==> nodes[k] == Some(jobs[k].node) && specs[k] == Some(Filled(jobs[k].spec, None)))
    }

    /** The state a run of `chain` leaves: ids in the rows above it, and exactly the builders it creates marked. */
    ghost predicate Ended(i: nat, jobs: seq<Job>, chain: seq<Link>)
      requires driver.Valid()
      reads nodes, specs, marks
    {
      && Valid() && |jobs| == |builders| && i <= |builders|
      && (forall k :: 0 <= k < i ==> nodes[k] == Some(jobs[k].node) && specs[k] == Some(Filled(jobs[k].spec, Given(jobs, chain, k))))
      && (forall k :: 0 <= k < |builders| ==>
            if k in Marked(chain, Reply(driver, Specs(jobs)))
            then marks[k] == Some(IdOr0(Given(jobs, chain, k))) && nodes[k] == Some(Final(jobs[k], Given(jobs, chain, k)))
            else marks[k] == None)
    }

    /** The batch insert: every slot must be filled, and on success every slot gets its id. */
    method BatchCreate(ghost jobs: seq<Job>) returns (error: Option<Error>)
      requires driver.Valid() && Ready(|builders|, jobs)
      modifies specs, this`trace
      ensures trace == old(trace) + [Insert] && error == Reply(driver, Specs(jobs))
      ensures Ended(|builders|, jobs, [])
    {
      trace := trace + [Insert];
      var rows := seq(specs.Length, k requires 0 <= k < specs.Length && specs[k].Some? reads specs => specs[k].value.spec);
      assert rows == Specs(jobs);
      match driver.insert(rows) {
        case Err(m) =>
          return Some(InsertFailed(m));
        case Ok(ids) =>
          for i := 0 to specs.Length
            invariant trace == old(trace) + [Insert]
            invariant forall k :: 0 <= k < specs.Length ==>
                        specs[k] == Some(Filled(jobs[k].spec, if k < i then ids[k] else None))
          {
            specs[i] := Some(specs[i].value.(id := ids[i]));
          }
          return None;
      }
    }

    /** The chain from hook `h` of builder `i`; below the last builder it is the batch insert. */
    method Mutate(i: nat, h: nat, ghost jobs: seq<Job>) returns (error: Option<Error>)
      requires driver.Valid() && Ready(i, jobs) && AllMade(jobs, runtime) && Position(Steps(builders, jobs), i, h)
      modifies nodes, specs, marks, this`trace
      ensures Ended(i, jobs, Chain(Steps(builders, jobs), i, h))
      ensures var o := Runs(Chain(Steps(builders, jobs), i, h), Reply(driver, Specs(jobs)));
              error == o.error && trace == old(trace) + o.trace
      decreases |builders| - i, (if i < |builders| then |builders[i].hooks| - h else 0), 2
    {
      ghost var steps := Steps(builders, jobs);
      if i == |builders| {
        error := BatchCreate(jobs);
      } else if h < |builders[i].hooks| {
        ghost var head, i', h' := Below(steps, i, h);
        error := MutateHook(i, h, jobs, Chain(steps, i, h));
      } else {
        ghost var head, i', h' := Below(steps, i, h);
        error := MutateCore(i, jobs, Chain(steps, i, h));
      }
    }

    /** A link that marks nothing itself adds nothing to the state the rest of its chain leaves. */
    lemma EndedUnder(i: nat, jobs: seq<Job>, chain: seq<Link>, inner: seq<Link>)
      requires driver.Valid() && Ended(i, jobs, inner)
      requires Marked(chain, Reply(driver, Specs(jobs))) == Marked(inner, Reply(driver, Specs(jobs)))
      requires AllLet(chain) <==> AllLet(inner)
      ensures Ended(i, jobs, chain)
    {
      assert forall k :: 0 <= k < |jobs| ==> Given(jobs, chain, k) == Given(jobs, inner, k);
    }

    /** A run that stops at its first link leaves the state as it is. */
    lemma EndedEarly(i: nat, jobs: seq<Job>, chain: seq<Link>)
      requires driver.Valid() && Ready(i, jobs)
      requires chain != [] && !Lets(chain[0])
      ensures Ended(i, jobs, chain)
    {
      assert forall k :: 0 <= k < |jobs| ==> Given(jobs, chain, k) == None;
    }

    method MutateHook(i: nat, h: nat, ghost jobs: seq<Job>, ghost chain: seq<Link>) returns (error: Option<Error>)
      requires driver.Valid() && Ready(i, jobs) && AllMade(jobs, runtime)
      requires i < |builders| && h < |builders[i].hooks|
      requires chain != [] && chain[0] == Wrap(i, h, builders[i].hooks[h]) && chain[1..] == Chain(Steps(builders, jobs), i, h + 1)
      modifies nodes, specs, marks, this`trace
      ensures Ended(i, jobs, chain)
      ensures var o := Runs(chain, Reply(driver, Specs(jobs)));
              error == o.error && trace == old(trace) + o.trace
      decreases |builders| - i, |builders[i].hooks| - h, 1
    {
      match builders[i].hooks[h]
      case Call(answer) =>
        error := CallOn(i, h, answer, jobs, chain);
      case Skip(e) =>
        error := e;
        trace := trace + [Enter(i, h)];
        trace := trace + [Exit(i, h)];
        EndedEarly(i, jobs, chain);
    }

    /** A hook that calls the next mutator and answers to its result. */
    method CallOn(i: nat, h: nat, answer: Option<Error> -> Option<Error>, ghost jobs: seq<Job>, ghost chain: seq<Link>)
      returns (error: Option<Error>)
      requires driver.Valid() && Ready(i, jobs) && AllMade(jobs, runtime)
      requires i < |builders| && h < |builders[i].hooks|
      requires chain != [] && chain[0] == Wrap(i, h, Call(answer)) && chain[1..] == Chain(Steps(builders, jobs), i, h + 1)
      modifies nodes, specs, marks, this`trace
      ensures Ended(i, jobs, chain)
      ensures var o := Runs(chain, Reply(driver, Specs(jobs)));
              error == o.error && trace == old(trace) + o.trace
      decreases |builders| - i, |builders[i].hooks| - h, 0
    {
      AroundRest(chain, Reply(driver, Specs(jobs)));
      TraceAround(trace, i, h, answer, Runs(chain[1..], Reply(driver, Specs(jobs))));
      trace := trace + [Enter(i, h)];
      error := Mutate(i, h + 1, jobs);
      EndedUnder(i, jobs, chain, chain[1..]);
      error := Leave(i, h, answer, jobs, chain, error);
    }

    /** The hook answers and is left. */
    method Leave(i: nat, h: nat, answer: Option<Error> -> Option<Error>, ghost jobs: seq<Job>, ghost chain: seq<Link>, inner: Option<Error>)
      returns (error: Option<Error>)
      requires driver.Valid() && Ended(i, jobs, chain)
      modifies this`trace
      ensures error == answer(inner) && trace == old(trace) + [Exit(i, h)] && Ended(i, jobs, chain)
    {
      error := answer(inner);
      trace := trace + [Exit(i, h)];
    }

    /** The innermost mutator of builder `i`: check, build, run the rest of the chain, mark done. */
    method MutateCore(i: nat, ghost jobs: seq<Job>, ghost chain: seq<Link>) returns (error: Option<Error>)
      requires driver.Valid() && Ready(i, jobs) && AllMade(jobs, runtime) && i < |builders|
      requires chain != [] && chain[0] == Core(i, jobs[i].trouble) && chain[1..] == Chain(Steps(builders, jobs), i + 1, 0)
      modifies nodes, specs, marks, this`trace
      ensures Ended(i, jobs, chain)
      ensures var o := Runs(chain, Reply(driver, Specs(jobs)));
              error == o.error && trace == old(trace) + o.trace
      decreases |builders| - i, 0, 1
    {
      assert Made(jobs[i], runtime);
      var bad := Check(changes[i].fields, runtime);
      if bad.Some? {
        EndedEarly(i, jobs, chain);
        return Some(CheckFailed(i, bad.value));
      }
      var node, spec := MakeSpec(changes[i]);
      nodes[i], specs[i] := Some(node), Some(Filled(spec, None));
      error := RunRest(i, jobs, chain);
    }

    /** What follows a built row: the rest of the chain, and on success the mark. */
    method RunRest(i: nat, ghost jobs: seq<Job>, ghost chain: seq<Link>) returns (error: Option<Error>)
      requires driver.Valid() && i < |builders| && Ready(i + 1, jobs) && AllMade(jobs, runtime)
      requires chain != [] && chain[0] == Core(i, None) && chain[1..] == Chain(Steps(builders, jobs), i + 1, 0)
      modifies nodes, specs, marks, this`trace
      ensures Ended(i, jobs, chain)
      ensures var o := Runs(chain, Reply(driver, Specs(jobs)));
              error == o.error && trace == old(trace) + o.trace
      decreases |builders| - i, 0, 0
    {
      error := Mutate(i + 1, 0, jobs);
      MarkedInside(Steps(builders, jobs), i + 1, 0, Reply(driver, Specs(jobs)));
      Finish(i, jobs, chain, error, old(trace));
    }

    /** The last lines of the innermost mutator: on success of the rest of the chain, the mark. */
    method Finish(i: nat, ghost jobs: seq<Job>, ghost chain: seq<Link>, error: Option<Error>, ghost before: seq<Event>)
      requires driver.Valid() && i < |builders| && chain != [] && chain[0] == Core(i, None) && Ended(i + 1, jobs, chain[1..])
      requires var o := Runs(chain[1..], Reply(driver, Specs(jobs))); error == o.error && trace == before + o.trace
      requires forall k :: k in Marked(chain[1..], Reply(driver, Specs(jobs))) ==> i < k
      modifies nodes, marks, this`trace
      ensures Ended(i, jobs, chain)
      ensures var o := Runs(chain, Reply(driver, Specs(jobs))); error == o.error && trace == before + o.trace
    {
      AroundRest(chain, Reply(driver, Specs(jobs)));
      if error.Some? {
        EndedUnder(i + 1, jobs, chain, chain[1..]);
      } else {
        MarkDone(i, jobs, chain, chain[1..]);
      }
    }

    /** The node takes the id of its row and the mutation is marked done. */
    method MarkDone(i: nat, ghost jobs: seq<Job>, ghost chain: seq<Link>, ghost inner: seq<Link>)
      requires driver.Valid() && Ended(i + 1, jobs, inner)
      requires Marked(chain, Reply(driver, Specs(jobs))) == [i] + Marked(inner, Reply(driver, Specs(jobs)))
      requires AllLet(chain) <==> AllLet(inner)
      requires forall k :: k in Marked(inner, Reply(driver, Specs(jobs))) ==> i < k
      modifies nodes, marks, this`trace
      ensures Ended(i, jobs, chain)
      ensures trace == old(trace) + [Done(i)]
    {
      ghost var reply := Reply(driver, Specs(jobs));
      assert forall k :: 0 <= k < |jobs| ==> Given(jobs, chain, k) == Given(jobs, inner, k);
      assert forall k :: k in Marked(chain, reply) <==> k == i || k in Marked(inner, reply);
      var id := specs[i].value.id;
      if id.Some? {
        nodes[i] := Some(nodes[i].value[Id := Is(Number(id.value))]);
      }
      marks[i] := Some(IdOr0(id));
      trace := trace + [Done(i)];
    }

    /** Runs `defaults` on every builder; a missing generator is not reported here. */
    method FillAllDefaults() returns (ghost jobs: seq<Job>)
      requires |changes| == |builders| && TypedRuntime(runtime) && forall k :: 0 <= k < |changes| ==> WellTyped(changes[k])
      modifies this`changes
      ensures |changes| == |builders| && jobs == Jobs(old(changes), runtime)
      ensures AllMade(jobs, runtime) && forall k :: 0 <= k < |builders| ==> changes[k] == jobs[k].changes
    {
      ghost var before := changes;
      for i := 0 to |builders|
        invariant |changes| == |builders|
        invariant forall k :: 0 <= k < |changes| ==> changes[k] == if k < i then AfterDefaults(before[k], runtime) else before[k]
      {
        var filled, uninitialized := FillDefaults(changes[i].fields, runtime);
        changes := changes[i := changes[i].(fields := filled)];
      }
      jobs := Jobs(before, runtime);
      forall k | 0 <= k < |jobs| ensures Made(jobs[k], runtime) {
        DefaultsTyped(before[k], runtime);
      }
    }

    lemma MarkedIds(jobs: seq<Job>, chain: seq<Link>)
      requires driver.Valid() && Ended(0, jobs, chain) && AllMade(jobs, runtime)
      ensures forall k :: 0 <= k < |builders| && k in Marked(chain, Reply(driver, Specs(jobs))) ==>
                && marks[k].Some? && nodes[k].Some? && Get(nodes[k].value, Id) == Is(Number(marks[k].value))
                && (Given(jobs, chain, k).Some? ==> marks[k] == Given(jobs, chain, k))
    {
      forall k | 0 <= k < |builders| ensures Get(Final(jobs[k], Given(jobs, chain, k)), Id) == Is(Number(IdOr0(Given(jobs, chain, k)))) {
        assert Made(jobs[k], runtime);
        FinalId(jobs[k], Given(jobs, chain, k), runtime);
      }
    }

    /** Runs the whole chain; a mutation marked done has the id of its node, and that is the driver's where there is one. */
    method RunAll(ghost jobs: seq<Job>) returns (error: Option<Error>)
      requires driver.Valid() && Ready(0, jobs) && AllMade(jobs, runtime) && trace == []
      modifies nodes, specs, marks, this`trace
      ensures var chain := Chain(Steps(builders, jobs), 0, 0);
              var o := Runs(chain, Reply(driver, Specs(jobs)));
              && trace == o.trace && error == o.error
              && (forall k :: 0 <= k < |builders| ==> (marks[k].Some? <==> Done(k) in trace))
              && (forall k :: 0 <= k < |builders| && Done(k) in trace ==> nodes[k] == Some(Final(jobs[k], Given(jobs, chain, k))))
      ensures forall k :: 0 <= k < |builders| && Done(k) in trace ==> IdsAgree(k, jobs)
    {
      ghost var chain := Chain(Steps(builders, jobs), 0, 0);
      ghost var reply := Reply(driver, Specs(jobs));
      error := Mutate(0, 0, jobs);
      DoneAreMarked(chain, reply);
      InsertOnce(chain, reply);
      MarkedIds(jobs, chain);
    }

    /** The mark of a mutation is the id of its node, and the driver's id where the insert ran and reported one. */
    ghost predicate IdsAgree(k: nat, jobs: seq<Job>)
      requires driver.Valid() && k < |jobs| == |builders| && Valid()
      reads nodes, marks, this`trace
    {
      var ids := driver.insert(Specs(jobs));
      && marks[k].Some? && nodes[k].Some? && Get(nodes[k].value, Id) == Is(Number(marks[k].value))
      && (Insert in trace && ids.Ok? && ids.value[k].Some? ==> marks[k] == ids.value[k])
    }

    /** Creates all rows of the builders with one batch insert. */
    method Save() returns (r: Result<seq<Option<Slots>>, Error>, ghost jobs: seq<Job>)
      requires driver.Valid() && Valid() && trace == [] && forall k :: 0 <= k < |builders| ==> marks[k] == None
      requires |changes| == |builders| && TypedRuntime(runtime) && forall k :: 0 <= k < |changes| ==> WellTyped(changes[k])
      modifies nodes, specs, marks, this`trace, this`changes
      ensures jobs == Jobs(old(changes), runtime) && AllMade(jobs, runtime)
      ensures forall k :: 0 <= k < |builders| ==> HasDefaults(old(changes)[k], jobs[k].changes, runtime)
      ensures builders == [] ==> r == Ok([]) && trace == []
      ensures builders != [] ==>
                var chain := Chain(Steps(builders, jobs), 0, 0);
                var o := Runs(chain, Reply(driver, Specs(jobs)));
                && trace == o.trace
                && (r.Err? <==> o.error.Some?) && (r.Err? ==> o.error == Some(r.error))
                && (forall k: nat :: k < |builders| ==> (marks[k].Some? <==> Done(k) in trace))
                && (r.Ok? ==> |r.value| == |builders|)
                && (r.Ok? ==> forall k :: 0 <= k < |builders| && Done(k) in trace ==> r.value[k] == Some(Final(jobs[k], Given(jobs, chain, k))))
      ensures r.Ok? ==> r.value == nodes[..]
      // Also when `Save` then fails.
      ensures forall k :: 0 <= k < |builders| && Done(k) in trace ==> IdsAgree(k, jobs)
      ensures builders != [] && r.Ok? && OnlyCalls(Steps(builders, jobs)) ==>
                var ids := driver.insert(Specs(jobs));
                ids.Ok? && forall k :: 0 <= k < |builders| ==> r.value[k] == Some(Final(jobs[k], ids.value[k]))
    {
      JobsHaveDefaults(changes, runtime);
      jobs := FillAllDefaults();
      if |builders| > 0 {
        var error := RunAll(jobs);
        if error.Some? {
          return Err(error.value), jobs;
        }
        if OnlyCalls(Steps(builders, jobs)) {
          CallsSucceed(Steps(builders, jobs), Reply(driver, Specs(jobs)));
        }
      }
      assert builders == [] ==> nodes[..] == [];
      r := Ok(nodes[..]);
    }
  }

  function AfterDefaults(c: Changes, rt: Runtime): Changes {
    c.(fields := Defaulted(c.fields, DefaultOrder(), rt))
  }

  /** What the setters set is kept, what they left out has its default, and nothing else is added. */
  ghost predicate HasDefaults(before: Changes, after: Changes, rt: Runtime) {
    && after.proxy == before.proxy && after.owner == before.owner
    && (forall f :: f in before.fields ==> f in after.fields && after.fields[f] == before.fields[f])
    && (forall f :: f in after.fields && f !in before.fields && f in rt.defaults ==> after.fields[f] == rt.defaults[f])
    && (forall f :: f in after.fields && f !in before.fields ==> (f, true) in DefaultOrder() || (f, false) in DefaultOrder())
    && (Initialized(before.fields, DefaultOrder(), rt) ==> forall x :: x in DefaultOrder() ==> x.0 in after.fields)
  }

  lemma JobsHaveDefaults(cs: seq<Changes>, rt: Runtime)
    ensures forall k :: 0 <= k < |cs| ==> HasDefaults(cs[k], Jobs(cs, rt)[k].changes, rt)
  {
    forall k | 0 <= k < |cs| ensures HasDefaults(cs[k], AfterDefaults(cs[k], rt), rt) {
      DefaultedKeeps(cs[k].fields, DefaultOrder(), rt);
    }
  }

  function Jobs(cs: seq<Changes>, rt: Runtime): (jobs: seq<Job>)
    ensures |jobs| == |cs|
  {
    seq(|cs|, k requires 0 <= k < |cs| => JobOf(AfterDefaults(cs[k], rt), rt))
  }

  /** A success of hooks that keep failures is a success of the insert, and marks every builder. */
  lemma CallsSucceed(steps: seq<Step>, reply: Option<Error>)
    requires OnlyCalls(steps) && Runs(Chain(steps, 0, 0), reply).error.None?
    ensures AllLet(Chain(steps, 0, 0)) && reply.None?
    ensures forall k: nat :: k < |steps| ==> Done(k) in Runs(Chain(steps, 0, 0), reply).trace
  {
    var chain := Chain(steps, 0, 0);
    ChainCalls(steps);
    MarksAll(steps, reply);
    if !AllLet(chain) || reply.Some? {
      NoneMarked(chain, reply);
    }
  }
}
