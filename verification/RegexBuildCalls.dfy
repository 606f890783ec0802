/**
  The calls behind the runs of `RegexBuild`: each answer is for the regex that its call was
  made with, a call left to run by itself answers, and the map has the names that were
  added and not erased.
 */
module RegexBuildCalls {
  import opened RegexBuild
  import opened RegexBuildProof

  // ----- the call of an answer -----

  /** In a call for a regex. */
  predicate CallsAt(s: State, c: nat, regex: string) {
    c < |s.callers| && s.callers[c] != Idle && s.callers[c].regex == regex
  }

  /** It begins with that action, and in no other way. */
  lemma CallBegins(matches: (string, string) -> bool, s: State, a: Action, c: nat, regex: string)
    requires CallsAt(Next(matches, s, a), c, regex)
    ensures CallsAt(s, c, regex)
         || (a.Begin? && a.c == c && a.regex == regex && c < |s.callers| && s.callers[c] == Idle)
  {
    hide NextStep;
    if a.Step? && a.c < |s.callers| {
      StepStays(matches, s, a.c, a.addr, a.throws);
    }
  }

  /** A step ends its call or stays in it. */
  lemma StepStays(matches: (string, string) -> bool, s: State, c: nat, addr: nat, throws: bool)
    requires c < |s.callers|
    ensures var s' := NextStep(matches, s, c, addr, throws);
      && |s'.callers| == |s.callers| && s'.callers == s.callers[c := s'.callers[c]]
      && (s'.callers[c] == Idle || (s.callers[c] != Idle && s'.callers[c].regex == s.callers[c].regex))
  {
    hide Register, Prepare, Publish, Forget, Copied, Ready;
  }

  lemma NoCallAtFirst(c: nat, regex: string)
    ensures !CallsAt(INIT, c, regex)
  {}

  /** The action that began the call a caller is in. */
  lemma {:induction false} CallOf(matches: (string, string) -> bool, acts: seq<Action>, c: nat, regex: string)
    returns (b: nat)
    requires CallsAt(Run(matches, acts), c, regex)
    ensures b < |acts| && acts[b].Begin? && acts[b].c == c && acts[b].regex == regex
    ensures c < |Run(matches, acts[..b]).callers| && Run(matches, acts[..b]).callers[c] == Idle
    ensures forall j :: b < j <= |acts| ==> CallsAt(Run(matches, acts[..j]), c, regex)
  {
    hide Next, CallsAt;
    NoCallAtFirst(c, regex);
    var n := |acts| - 1;
    assert acts[..|acts|] == acts;
    CallBegins(matches, Run(matches, acts[..n]), acts[n], c, regex);
    if CallsAt(Run(matches, acts[..n]), c, regex) {
      b := CallOf(matches, acts[..n], c, regex);
      forall j | 0 <= j <= n ensures acts[..n][..j] == acts[..j] {}
    } else {
      b := n;
    }
  }

  /**
    Every answer of a run is that of a call: made by `acts[b]` with the answer's regex, in
    progress from then on to the step `acts[k]`, which found exactly the names that match
    that regex in the map as it was then.
   */
  lemma AnswersItsCall(matches: (string, string) -> bool, acts: seq<Action>, i: nat) returns (b: nat, k: nat)
    requires i < |Run(matches, acts).answers|
    ensures b < k < |acts|
    ensures |Run(matches, acts[..k]).answers| == i && |Run(matches, acts[..k + 1]).answers| == i + 1
    ensures var x := Run(matches, acts).answers[i];
      && acts[b].Begin? && acts[b].c == x.caller && acts[b].regex == x.regex
      && x.caller < |Run(matches, acts[..b]).callers| && Run(matches, acts[..b]).callers[x.caller] == Idle
      && (forall j :: b < j <= k ==> CallsAt(Run(matches, acts[..j]), x.caller, x.regex))
      && x.names == MatchingNames(matches, Run(matches, acts[..k]), acts[b].regex)
  {
    hide Run;
    k := EveryAnswerWasExact(matches, acts, i);
    var x := Run(matches, acts).answers[i];
    b := CallOf(matches, acts[..k], x.caller, x.regex);
    forall j | 0 <= j <= k ensures acts[..k][..j] == acts[..j] {}
  }

  // ----- a call by itself -----

  /** How many steps a call has left when nothing interferes, at most. */
  function StepsLeft(s: State, pc: Pc): nat {
    match pc
    case Idle => 0
    case Drain(_) => 1
    case Find(_) => 2
    case Scan(_, _, _, todo, _, _) => 1 + |todo|
    case Abandon(_, _) => 1
    case Pin(_) => 2 + |s.entries|
    case Compile(_) => 3 + |s.entries|
    case Check(_) => 4 + |s.entries|
  }

  /** One step: nearer the answer, or answered; the map is as it was. */
  predicate Advances(s: State, s': State, c: nat, regex: string) {
    && c < |s.callers| && c < |s'.callers| && s'.entries == s.entries && s'.heap == s.heap
    && StepsLeft(s', s'.callers[c]) < StepsLeft(s, s.callers[c])
    && if s'.callers[c] == Idle then |s'.answers| == |s.answers| + 1
       else s'.answers == s.answers && CallsAt(s', c, regex) && !s'.callers[c].Abandon?
  }

  /** The string that the caller scans next, if it is scanning. */
  ghost function NextString(pc: Pc): nat {
    if pc.Scan? && pc.todo != {} then var a :| a in pc.todo; a else 0
  }

  lemma SmallerSet(a: set<nat>, b: set<nat>)
    requires a <= b
    ensures |a| <= |b|
  {
    if a != {} {
      var x :| x in a;
      SmallerSet(a - {x}, b - {x});
    }
  }

  lemma PinAdvances(matches: (string, string) -> bool, s: State, c: nat)
    requires Inv(matches, s) && c < |s.callers| && s.callers[c].Pin?
    ensures Advances(s, Next(matches, s, Step(c, 0, false)), c, s.callers[c].regex)
  {
    hide ScanOk, Filed;
    var regex := s.callers[c].regex;
    if !Ready(s.cache, regex) {
      RegisterOk(matches, s.heap, s.cache, regex);
      QueueInUniverse(matches, s.heap, Register(s.cache, regex), regex);
      SmallerSet(Register(s.cache, regex).builds[regex].queued, s.entries);
    }
  }

  lemma ScanAdvances(matches: (string, string) -> bool, s: State, c: nat)
    requires Inv(matches, s) && c < |s.callers| && s.callers[c].Scan?
    ensures Advances(s, Next(matches, s, Step(c, NextString(s.callers[c]), false)), c, s.callers[c].regex)
  {
    hide CacheOk, MapOk, Register, Prepare, Publish, Copied, Ready;
    assert ScanOk(matches, s, s.callers[c]);
  }

  lemma CallAdvances(matches: (string, string) -> bool, s: State, c: nat)
    requires Inv(matches, s) && c < |s.callers| && s.callers[c] != Idle && !s.callers[c].Abandon?
    ensures Advances(s, Next(matches, s, Step(c, NextString(s.callers[c]), false)), c, s.callers[c].regex)
  {
    if s.callers[c].Pin? {
      hide Inv, Advances, Next;
      PinAdvances(matches, s, c);
    } else if s.callers[c].Scan? {
      hide Inv, Advances, Next;
      ScanAdvances(matches, s, c);
    } else {
      hide Inv, Register, Prepare, Publish, Copied, Ready;
    }
  }

  predicate CallerOnly(more: seq<Action>, c: nat) {
    forall i :: 0 <= i < |more| ==> more[i].Step? && more[i].c == c && !more[i].throws
  }

  /** The call has returned what matches in a map that is as it was. */
  predicate Answers(matches: (string, string) -> bool, s: State, s': State, c: nat, regex: string) {
    && c < |s'.callers| && s'.callers[c] == Idle && s'.entries == s.entries && s'.heap == s.heap
    && s'.answers == s.answers + [Answer(c, regex, MatchingNames(matches, s, regex))]
  }

  lemma StillAnswers(matches: (string, string) -> bool, s: State, s1: State, s2: State, c: nat, regex: string)
    requires s1.entries == s.entries && s1.heap == s.heap && s1.answers == s.answers
    requires Answers(matches, s1, s2, c, regex)
    ensures Answers(matches, s, s2, c, regex)
  {}

  lemma {:induction false} CallFinishes(matches: (string, string) -> bool, acts: seq<Action>, c: nat, regex: string)
    returns (more: seq<Action>)
    requires CallsAt(Run(matches, acts), c, regex) && !Run(matches, acts).callers[c].Abandon?
    ensures CallerOnly(more, c) && |more| <= StepsLeft(Run(matches, acts), Run(matches, acts).callers[c])
    ensures Answers(matches, Run(matches, acts), Run(matches, acts + more), c, regex)
    decreases
      if CallsAt(Run(matches, acts), c, regex) then StepsLeft(Run(matches, acts), Run(matches, acts).callers[c]) else 0
  {
    hide Run, Next, Inv, StepsLeft, Answers, MatchingNames;
    var s := Run(matches, acts);
    var a := Step(c, NextString(s.callers[c]), false);
    RunKeeps(matches, acts);
    CallAdvances(matches, s, c);
    OneMore(matches, acts, a);
    var s1 := Run(matches, acts + [a]);
    if s1.callers[c] == Idle {
      more := [a];
      AnswersAreExact(matches, acts, a);
      assert Answers(matches, s, s1, c, regex) by { JustAnswered(matches, s, s1, c, regex); }
    } else {
      var rest := CallFinishes(matches, acts + [a], c, regex);
      more := [a] + rest;
      assert acts + more == acts + [a] + rest;
      StillAnswers(matches, s, s1, Run(matches, acts + more), c, regex);
    }
  }

  lemma JustAnswered(matches: (string, string) -> bool, s: State, s': State, c: nat, regex: string)
    requires c < |s'.callers| && s'.callers[c] == Idle && s'.entries == s.entries && s'.heap == s.heap
    requires s'.answers == s.answers + [Answer(c, regex, MatchingNames(matches, s, regex))]
    ensures Answers(matches, s, s', c, regex)
  {}

  /**
    A search, from any state of a run: by itself, and with nothing thrown, it returns what
    matches, in two steps under the lock or in as many as the map has entries and four, off it.
   */
  lemma SearchReturns(matches: (string, string) -> bool, acts: seq<Action>, c: nat, regex: string, offLock: bool)
    returns (more: seq<Action>)
    requires c < |Run(matches, acts).callers| && Run(matches, acts).callers[c] == Idle
    ensures CallerOnly(more, c) && |more| <= if offLock then 4 + |Run(matches, acts).entries| else 2
    ensures Answers(matches, Run(matches, acts), Run(matches, acts + [Begin(c, regex, offLock)] + more), c, regex)
  {
    hide Run, Answers;
    var s := Run(matches, acts);
    OneMore(matches, acts, Begin(c, regex, offLock));
    var s1 := Run(matches, acts + [Begin(c, regex, offLock)]);
    more := CallFinishes(matches, acts + [Begin(c, regex, offLock)], c, regex);
    StillAnswers(matches, s, s1, Run(matches, acts + [Begin(c, regex, offLock)] + more), c, regex);
  }

  // ----- the names in the map -----

  function Names(s: State): set<string> {
    set a | a in s.entries && a in s.heap :: s.heap[a]
  }

  lemma AddEdits(s: State, name: string, addr: nat)
    requires MapOk(s) && addr !in s.heap
    ensures Names(AddEntry(s, name, addr)) == Names(s) + {name}
  {
    hide AddString;
    var s' := AddEntry(s, name, addr);
    assert addr in s'.entries && s'.heap[addr] == name;
    forall n | n in Names(s) ensures n in Names(s') {
      var a :| a in s.entries && a in s.heap && s.heap[a] == n;
      assert a in s'.entries && s'.heap[a] == n;
    }
  }

  lemma EraseEdits(s: State, addr: nat)
    requires MapOk(s) && addr in s.entries
    ensures MapOk(EraseEntry(s, addr)) && Names(EraseEntry(s, addr)) == Names(s) - {s.heap[addr]}
  {
    var s' := EraseEntry(s, addr);
    forall n | n in Names(s) - {s.heap[addr]} ensures n in Names(s') {
      var a :| a in s.entries && a in s.heap && s.heap[a] == n;
      assert a in s'.entries;
    }
  }

  /**
    The names in the map after one more action: those added and not erased.  An overwrite
    puts a new entry under the name.
   */
  lemma MapIsEdited(matches: (string, string) -> bool, acts: seq<Action>, a: Action)
    ensures var s, s' := Run(matches, acts), Next(matches, Run(matches, acts), a);
      Names(s') ==
        match a
        case Add(name, addr, throws) => if throws || addr in s.heap then Names(s) else Names(s) + {name}
        case Erase(addr) => if addr in s.entries && addr in s.heap then Names(s) - {s.heap[addr]} else Names(s)
        case Clear => {}
        case _ => Names(s)
    ensures var s, s' := Run(matches, acts), Next(matches, Run(matches, acts), a);
      a.Overwrite? && a.former in s.entries && a.addr !in s.heap ==>
        a.former in s.heap && s'.entries == s.entries - {a.former} + {a.addr}
        && s'.heap == s.heap[a.addr := s.heap[a.former]]
  {
    hide Run, NextStep;
    RunKeeps(matches, acts);
    var s := Run(matches, acts);
    match a
    case Add(name, addr, throws) =>
      if addr !in s.heap {
        AddEdits(s, name, addr);
      }
    case Erase(addr) =>
      if addr in s.entries {
        EraseEdits(s, addr);
      }
    case Overwrite(former, addr) =>
      if former in s.entries && addr !in s.heap {
        EraseEdits(s, former);
        AddEdits(EraseEntry(s, former), s.heap[former], addr);
      }
    case Step(c, addr, throws) =>
      if c < |s.callers| {
        StepsEditNothing(matches, s, c, addr, throws);
      }
    case _ =>
  }

  lemma StepsEditNothing(matches: (string, string) -> bool, s: State, c: nat, addr: nat, throws: bool)
    requires c < |s.callers|
    ensures var s' := NextStep(matches, s, c, addr, throws); s'.entries == s.entries && s'.heap == s.heap
  {
    hide Register, Prepare, Publish, Forget, Copied, Ready;
  }
}
