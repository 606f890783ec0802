/** What `RegexBuild` keeps in every run, and what its callers get. */
module RegexBuildProof {
  import opened RegexBuild

  // ----- the cache's operations keep every string filed by its name -----

  lemma RegisterOk(matches: (string, string) -> bool, heap: map<nat, string>, c: Cache, regex: string)
    requires CacheOk(matches, heap, c)
    ensures CacheOk(matches, heap, Register(c, regex)) && regex in Register(c, regex).builds
    ensures Register(c, regex).universe == c.universe && Register(c, regex).registered >= c.registered
    ensures forall r :: r in c.builds ==> r in Register(c, regex).builds && Register(c, regex).builds[r] == c.builds[r]
  {
    var c' := Register(c, regex);
    forall r | r in c'.builds ensures Filed(matches, heap, c'.universe, r, c'.builds[r]) {
      assert r in c.builds ==> Filed(matches, heap, c.universe, r, c.builds[r]);
    }
  }

  /**
    Publishing a scan leaves the regex's strings filed by name exactly when, for every
    scanned string still queued, the scan said what the name now at that address says:
    which is why every scanned entry is pinned until then.
   */
  lemma PublishOkIff(matches: (string, string) -> bool, heap: map<nat, string>, c: Cache, regex: string,
      done: set<nat>, hits: set<nat>)
    requires CacheOk(matches, heap, c) && c.universe <= heap.Keys && hits <= done && regex in c.builds
    ensures CacheOk(matches, heap, Publish(c, regex, done, hits))
       <==> forall a :: a in done * c.builds[regex].queued ==> (a in hits <==> matches(regex, heap[a]))
  {
    var c' := Publish(c, regex, done, hits);
    var b, b' := c.builds[regex], c'.builds[regex];
    assert Filed(matches, heap, c.universe, regex, b);
    if CacheOk(matches, heap, c') {
      assert Filed(matches, heap, c'.universe, regex, b');
      forall a | a in done * b.queued ensures a in hits <==> matches(regex, heap[a]) {
        assert a in c.universe && a !in b'.queued;
      }
    }
    if forall a :: a in done * b.queued ==> (a in hits <==> matches(regex, heap[a])) {
      forall r | r in c'.builds ensures Filed(matches, heap, c'.universe, r, c'.builds[r]) {
        assert Filed(matches, heap, c.universe, r, c.builds[r]);
      }
    }
  }

  lemma PublishKeepsOthers(c: Cache, regex: string, done: set<nat>, hits: set<nat>)
    ensures var c' := Publish(c, regex, done, hits);
      && c'.universe == c.universe && c'.registered == c.registered && c'.builds.Keys == c.builds.Keys
      && (forall r :: r in c.builds ==> c'.builds[r].queued <= c.builds[r].queued && c'.builds[r].id == c.builds[r].id)
  {}

  lemma PrepareOk(matches: (string, string) -> bool, heap: map<nat, string>, c: Cache, regex: string)
    requires CacheOk(matches, heap, c) && c.universe <= heap.Keys
    ensures var c' := Prepare(matches, heap, c, regex);
      && CacheOk(matches, heap, c') && Ready(c', regex) && c'.universe == c.universe && c'.registered >= c.registered
      && (forall r :: r in c.builds ==>
            r in c'.builds && c'.builds[r].queued <= c.builds[r].queued && c'.builds[r].id == c.builds[r].id)
      && (forall r :: r in c'.builds && r !in c.builds ==> c'.builds[r].id >= c.registered)
  {
    hide CacheOk;
    RegisterOk(matches, heap, c, regex);
    var c1 := Register(c, regex);
    var todo := c1.builds[regex].queued;
    QueueInUniverse(matches, heap, c1, regex);
    PublishOkIff(matches, heap, c1, regex, todo, set a | a in todo && a in heap && matches(regex, heap[a]));
  }

  lemma QueueInUniverse(matches: (string, string) -> bool, heap: map<nat, string>, c: Cache, regex: string)
    requires CacheOk(matches, heap, c) && regex in c.builds
    ensures c.builds[regex].queued <= c.universe
  {
    assert Filed(matches, heap, c.universe, regex, c.builds[regex]);
  }

  lemma ForgetOk(matches: (string, string) -> bool, heap: map<nat, string>, c: Cache, regexes: set<string>)
    requires CacheOk(matches, heap, c)
    ensures CacheOk(matches, heap, Forget(c, regexes))
  {
    var c' := Forget(c, regexes);
    forall r | r in c'.builds ensures Filed(matches, heap, c'.universe, r, c'.builds[r]) {
      assert Filed(matches, heap, c.universe, r, c.builds[r]);
    }
  }

  /** A ready regex's matches are exactly the names in the map that match. */
  lemma ReadyIsExact(matches: (string, string) -> bool, s: State, regex: string)
    requires MapOk(s) && CacheOk(matches, s.heap, s.cache) && Ready(s.cache, regex)
    ensures Copied(s, regex) == MatchingNames(matches, s, regex)
  {
    assert Filed(matches, s.heap, s.cache.universe, regex, s.cache.builds[regex]);
    var m := s.cache.builds[regex].matched;
    assert forall a :: a in m && a in s.heap <==> a in s.entries && a in s.heap && matches(regex, s.heap[a]);
  }

  // ----- what a change of the cache does to a scan in progress -----

  /** The cache only moved on: no string came back to a queue. */
  predicate Onward(c: Cache, c': Cache) {
    && c'.registered >= c.registered
    && (forall r :: r in c'.builds ==>
          if r in c.builds && c'.builds[r].id == c.builds[r].id then c'.builds[r].queued <= c.builds[r].queued
          else c'.builds[r].id >= c.registered)
  }

  lemma OnwardKeepsScan(matches: (string, string) -> bool, s: State, s': State, pc: Pc)
    requires ScanOk(matches, s, pc) && s'.heap == s.heap && Onward(s.cache, s'.cache)
    ensures ScanOk(matches, s', pc)
  {}

  lemma OnwardKeeps(matches: (string, string) -> bool, s: State, s': State, c: nat)
    requires Inv(matches, s) && c < |s.callers| == |s'.callers| && s'.callers == s.callers[c := s'.callers[c]]
    requires s'.heap == s.heap && s'.entries == s.entries
    requires s'.cache.universe == s.cache.universe && Onward(s.cache, s'.cache)
    requires CacheOk(matches, s'.heap, s'.cache) && ScanOk(matches, s', s'.callers[c])
    ensures Inv(matches, s')
  {
    hide CacheOk, ScanOk, Onward;
    forall d | 0 <= d < |s'.callers| ensures ScanOk(matches, s', s'.callers[d]) {
      if d != c {
        assert ScanOk(matches, s, s.callers[d]);
        OnwardKeepsScan(matches, s, s', s.callers[d]);
      }
    }
  }

  /** A caller that only moves on. */
  lemma MoveKeeps(matches: (string, string) -> bool, s: State, c: nat, pc: Pc)
    requires Inv(matches, s) && c < |s.callers| && ScanOk(matches, s, pc)
    ensures Inv(matches, Put(s, c, pc))
  {
    hide CacheOk, ScanOk;
    var s' := Put(s, c, pc);
    forall d | 0 <= d < |s'.callers| ensures ScanOk(matches, s', s'.callers[d]) {
      SameScan(matches, s, s', if d == c then pc else s.callers[d]);
    }
  }

  lemma SameScan(matches: (string, string) -> bool, s: State, s': State, pc: Pc)
    requires ScanOk(matches, s, pc) && s'.heap == s.heap && s'.cache == s.cache
    ensures ScanOk(matches, s', pc)
  {}

  lemma AnswerKeeps(matches: (string, string) -> bool, s: State, c: nat, regex: string)
    requires Inv(matches, s) && c < |s.callers|
    ensures Inv(matches, Answered(s, c, regex))
  {
    hide CacheOk, ScanOk;
    var s' := Answered(s, c, regex);
    forall d | 0 <= d < |s'.callers| ensures ScanOk(matches, s', s'.callers[d]) {
      if d == c {
        RestingScans(matches, s', Idle);
      } else {
        SameScan(matches, s, s', s.callers[d]);
      }
    }
  }

  lemma RestingScans(matches: (string, string) -> bool, s: State, pc: Pc)
    requires !pc.Scan? && !pc.Abandon?
    ensures ScanOk(matches, s, pc)
  {}

  lemma DrainKeeps(matches: (string, string) -> bool, s: State, c: nat, regex: string, throws: bool)
    requires Inv(matches, s) && c < |s.callers|
    ensures Inv(matches, DrainAndAnswer(matches, s, c, regex, throws))
  {
    hide CacheOk, ScanOk, Prepare;
    if Ready(s.cache, regex) {
      AnswerKeeps(matches, s, c, regex);
    } else if throws {
      ForgetOk(matches, s.heap, s.cache, s.cache.builds.Keys);
      var s' := Put(s, c, Idle).(cache := Forget(s.cache, s.cache.builds.Keys));
      RestingScans(matches, s', Idle);
      OnwardKeeps(matches, s, s', c);
    } else {
      PrepareOk(matches, s.heap, s.cache, regex);
      var s1 := s.(cache := Prepare(matches, s.heap, s.cache, regex));
      OnwardKeepsScan(matches, s, s1, s.callers[c]);
      OnwardKeeps(matches, s, s1, c);
      AnswerKeeps(matches, s1, c, regex);
    }
  }

  lemma PinKeeps(matches: (string, string) -> bool, s: State, c: nat, addr: nat, throws: bool)
    requires Inv(matches, s) && c < |s.callers| && s.callers[c].Pin?
    ensures Inv(matches, NextStep(matches, s, c, addr, throws))
  {
    var regex := s.callers[c].regex;
    if Ready(s.cache, regex) {
      AnswerKeeps(matches, s, c, regex);
    } else {
      hide Inv, CacheOk, ScanOk, Register;
      var s' := NextStep(matches, s, c, addr, throws);
      PinRegisters(matches, s, s', c);
      assert Inv(matches, s) ==> MapOk(s);
      OnwardKeeps(matches, s, s', c);
    }
  }

  lemma PinRegisters(matches: (string, string) -> bool, s: State, s': State, c: nat)
    requires Inv(matches, s) && c < |s.callers| && s.callers[c].Pin? && !Ready(s.cache, s.callers[c].regex)
    requires s' == NextStep(matches, s, c, 0, false)
    ensures s'.callers == s.callers[c := s'.callers[c]] && s'.heap == s.heap && s'.entries == s.entries
    ensures s'.cache.universe == s.cache.universe && Onward(s.cache, s'.cache)
    ensures CacheOk(matches, s'.heap, s'.cache) && ScanOk(matches, s', s'.callers[c])
  {
    RegisterOk(matches, s.heap, s.cache, s.callers[c].regex);
    QueueInUniverse(matches, s'.heap, s'.cache, s.callers[c].regex);
  }

  lemma ScanKeeps(matches: (string, string) -> bool, s: State, c: nat, addr: nat, throws: bool)
    requires Inv(matches, s) && c < |s.callers| && s.callers[c].Scan?
    ensures Inv(matches, NextStep(matches, s, c, addr, throws))
  {
    var pc := s.callers[c];
    assert ScanOk(matches, s, pc);
    if pc.todo == {} {
      var s1 := s.(cache := Publish(s.cache, pc.regex, pc.done, pc.hits));
      PublishedKeeps(matches, s, c);
      hide Inv;
      DrainKeeps(matches, s1, c, pc.regex, throws);
    } else if throws {
      MoveKeeps(matches, s, c, Abandon(pc.regex, pc.pins));
    } else if addr in pc.todo && addr in s.heap {
      var hits := if matches(pc.regex, s.heap[addr]) then pc.hits + {addr} else pc.hits;
      MoveKeeps(matches, s, c, Scan(pc.regex, pc.pins, pc.id, pc.todo - {addr}, pc.done + {addr}, hits));
    }
  }

  lemma PublishedKeeps(matches: (string, string) -> bool, s: State, c: nat)
    requires Inv(matches, s) && c < |s.callers| && s.callers[c].Scan?
    ensures var pc := s.callers[c]; Inv(matches, s.(cache := Publish(s.cache, pc.regex, pc.done, pc.hits)))
  {
    hide CacheOk;
    var pc := s.callers[c];
    var s' := s.(cache := Publish(s.cache, pc.regex, pc.done, pc.hits));
    assert ScanOk(matches, s, pc);
    if pc.regex in s.cache.builds {
      PublishOkIff(matches, s.heap, s.cache, pc.regex, pc.done, pc.hits);
    }
    PublishKeepsOthers(s.cache, pc.regex, pc.done, pc.hits);
    hide Publish;
    OnwardKeepsScan(matches, s, s', pc);
    OnwardKeeps(matches, s, s', c);
  }

  lemma AbandonKeeps(matches: (string, string) -> bool, s: State, c: nat, addr: nat, throws: bool)
    requires Inv(matches, s) && c < |s.callers| && s.callers[c].Abandon?
    ensures Inv(matches, NextStep(matches, s, c, addr, throws))
  {
    hide CacheOk;
    ForgetOk(matches, s.heap, s.cache, {s.callers[c].regex});
    OnwardKeeps(matches, s, NextStep(matches, s, c, addr, throws), c);
  }

  lemma StepKeeps(matches: (string, string) -> bool, s: State, c: nat, addr: nat, throws: bool)
    requires Inv(matches, s) && c < |s.callers|
    ensures Inv(matches, NextStep(matches, s, c, addr, throws))
  {
    hide Inv, DrainAndAnswer, Answered;
    match s.callers[c]
    case Check(regex) =>
      if Ready(s.cache, regex) {
        AnswerKeeps(matches, s, c, regex);
      } else {
        MoveKeeps(matches, s, c, if s.entries == {} then Find(regex) else Compile(regex));
      }
    case Compile(regex) => MoveKeeps(matches, s, c, if throws then Idle else Pin(regex));
    case Pin(regex) => PinKeeps(matches, s, c, addr, throws);
    case Scan(_, _, _, _, _, _) => ScanKeeps(matches, s, c, addr, throws);
    case Abandon(_, _) => AbandonKeeps(matches, s, c, addr, throws);
    case Find(regex) =>
      if Ready(s.cache, regex) {
        AnswerKeeps(matches, s, c, regex);
      } else {
        MoveKeeps(matches, s, c, Drain(regex));
      }
    case Drain(regex) => DrainKeeps(matches, s, c, regex, throws);
    case Idle =>
  }

  // ----- the map's own changes -----

  lemma AddOk(matches: (string, string) -> bool, heap: map<nat, string>, c: Cache, a: nat, name: string)
    requires CacheOk(matches, heap, c) && c.universe <= heap.Keys && a !in heap
    ensures CacheOk(matches, heap[a := name], AddString(c, a))
  {
    var heap', c' := heap[a := name], AddString(c, a);
    forall r | r in c'.builds ensures Filed(matches, heap', c'.universe, r, c'.builds[r]) {
      assert Filed(matches, heap, c.universe, r, c.builds[r]);
    }
  }

  /** A new entry is at an address no scan has pinned. */
  lemma AddKeepsScan(matches: (string, string) -> bool, s: State, pc: Pc, name: string, a: nat)
    requires ScanOk(matches, s, pc) && a !in s.heap
    ensures ScanOk(matches, AddEntry(s, name, a), pc)
  {
    if pc.Scan? && pc.regex in s.cache.builds && s.cache.builds[pc.regex].id == pc.id {
      assert (s.cache.builds[pc.regex].queued + {a}) * pc.pins == s.cache.builds[pc.regex].queued * pc.pins;
    }
  }

  lemma AddKeeps(matches: (string, string) -> bool, s: State, name: string, a: nat)
    requires Inv(matches, s) && a !in s.heap && !InMap(s, name)
    ensures Inv(matches, AddEntry(s, name, a))
  {
    hide CacheOk, ScanOk;
    var s' := AddEntry(s, name, a);
    AddOk(matches, s.heap, s.cache, a, name);
    forall b | b in s.entries ensures s.heap[b] != name {}
    forall c | 0 <= c < |s'.callers| ensures ScanOk(matches, s', s'.callers[c]) {
      AddKeepsScan(matches, s, s.callers[c], name, a);
    }
  }

  lemma EraseOk(matches: (string, string) -> bool, heap: map<nat, string>, c: Cache, a: nat)
    requires CacheOk(matches, heap, c)
    ensures CacheOk(matches, heap, EraseString(c, a))
  {
    var c' := EraseString(c, a);
    forall r | r in c'.builds ensures Filed(matches, heap, c'.universe, r, c'.builds[r]) {
      assert Filed(matches, heap, c.universe, r, c.builds[r]);
    }
  }

  lemma EraseKeeps(matches: (string, string) -> bool, s: State, a: nat)
    requires Inv(matches, s)
    ensures Inv(matches, EraseEntry(s, a))
  {
    hide CacheOk, ScanOk;
    var s' := EraseEntry(s, a);
    EraseOk(matches, s.heap, s.cache, a);
    forall c | 0 <= c < |s'.callers| ensures ScanOk(matches, s', s'.callers[c]) {
      assert ScanOk(matches, s, s.callers[c]);
      OnwardKeepsScan(matches, s, s', s.callers[c]);
    }
  }

  lemma FreeOk(matches: (string, string) -> bool, heap: map<nat, string>, c: Cache, a: nat)
    requires CacheOk(matches, heap, c) && a !in c.universe
    ensures CacheOk(matches, heap - {a}, c)
  {
    forall r | r in c.builds ensures Filed(matches, heap - {a}, c.universe, r, c.builds[r]) {
      assert Filed(matches, heap, c.universe, r, c.builds[r]);
    }
  }

  lemma FreeKeeps(matches: (string, string) -> bool, s: State, a: nat)
    requires Inv(matches, s) && Unreferenced(s, a)
    ensures Inv(matches, s.(heap := s.heap - {a}))
  {
    hide CacheOk;
    var s' := s.(heap := s.heap - {a});
    FreeOk(matches, s.heap, s.cache, a);
    forall c | 0 <= c < |s'.callers| ensures ScanOk(matches, s', s'.callers[c]) {
      assert ScanOk(matches, s, s.callers[c]);
    }
  }

  lemma CacheChangeKeeps(matches: (string, string) -> bool, s: State, s': State)
    requires Inv(matches, s) && s'.callers == s.callers && s'.heap == s.heap && Onward(s.cache, s'.cache)
    requires CacheOk(matches, s'.heap, s'.cache) && MapOk(s')
    ensures Inv(matches, s')
  {
    hide CacheOk, ScanOk;
    forall c | 0 <= c < |s'.callers| ensures ScanOk(matches, s', s'.callers[c]) {
      OnwardKeepsScan(matches, s, s', s.callers[c]);
    }
  }

  lemma SpawnKeeps(matches: (string, string) -> bool, s: State)
    requires Inv(matches, s)
    ensures Inv(matches, s.(callers := s.callers + [Idle]))
  {
    hide CacheOk, ScanOk;
    var s' := s.(callers := s.callers + [Idle]);
    forall c | 0 <= c < |s'.callers| ensures ScanOk(matches, s', s'.callers[c]) {
      if c < |s.callers| {
        SameScan(matches, s, s', s.callers[c]);
      } else {
        RestingScans(matches, s', Idle);
      }
    }
  }

  lemma NextKeeps(matches: (string, string) -> bool, s: State, a: Action)
    requires Inv(matches, s)
    ensures Inv(matches, Next(matches, s, a))
  {
    hide CacheOk, ScanOk, NextStep, AddEntry;
    match a
    case Spawn => SpawnKeeps(matches, s);
    case Begin(c, regex, offLock) =>
      if c < |s.callers| && s.callers[c] == Idle {
        var pc := if offLock then Check(regex) else Find(regex);
        RestingScans(matches, s, pc);
        MoveKeeps(matches, s, c, pc);
      }
    case Step(c, addr, throws) =>
      if c < |s.callers| {
        StepKeeps(matches, s, c, addr, throws);
      }
    case Add(name, addr, throws) =>
      if addr !in s.heap && !InMap(s, name) && !throws {
        AddKeeps(matches, s, name, addr);
      }
    case Erase(addr) => EraseKeeps(matches, s, addr);
    case Overwrite(former, addr) =>
      if former in s.entries && former in s.heap && addr !in s.heap {
        EraseKeeps(matches, s, former);
        AddKeeps(matches, EraseEntry(s, former), s.heap[former], addr);
      }
    case Clear =>
      assert CacheOk(matches, s.heap, s.cache.(universe := {}, builds := map[])) by {
        NoBuilds(matches, s.heap, s.cache.registered);
      }
      CacheChangeKeeps(matches, s, Next(matches, s, a));
    case Trim(regexes) =>
      ForgetOk(matches, s.heap, s.cache, regexes);
      CacheChangeKeeps(matches, s, Next(matches, s, a));
    case Free(addr) =>
      if Unreferenced(s, addr) {
        FreeKeeps(matches, s, addr);
      }
  }

  lemma NoBuilds(matches: (string, string) -> bool, heap: map<nat, string>, registered: nat)
    ensures CacheOk(matches, heap, Cache({}, map[], registered))
  {}

  lemma {:induction false} RunKeeps(matches: (string, string) -> bool, acts: seq<Action>)
    ensures Inv(matches, Run(matches, acts))
  {
    hide Next;
    if acts == [] {
      NoBuilds(matches, map[], 0);
    } else {
      RunKeeps(matches, acts[..|acts| - 1]);
      NextKeeps(matches, Run(matches, acts[..|acts| - 1]), acts[|acts| - 1]);
    }
  }

  // ----- what holds of every run -----

  predicate Calling(s: State, x: Answer) {
    x.caller < |s.callers| && s.callers[x.caller] != Idle && s.callers[x.caller].regex == x.regex
  }

  lemma DrainAnswers(matches: (string, string) -> bool, s: State, c: nat, regex: string, throws: bool)
    requires Inv(matches, s) && c < |s.callers|
    ensures var s' := DrainAndAnswer(matches, s, c, regex, throws);
      && s'.entries == s.entries && s'.heap == s.heap && |s'.callers| == |s.callers| && s'.callers[c] == Idle
      && (s'.answers == s.answers || s'.answers == s.answers + [Answer(c, regex, MatchingNames(matches, s, regex))])
  {
    hide CacheOk, ScanOk, Prepare;
    if Ready(s.cache, regex) {
      ReadyIsExact(matches, s, regex);
    } else if !throws {
      PrepareOk(matches, s.heap, s.cache, regex);
      ReadyIsExact(matches, s.(cache := Prepare(matches, s.heap, s.cache, regex)), regex);
    }
  }

  lemma StepAnswers(matches: (string, string) -> bool, s: State, c: nat, addr: nat, throws: bool)
    requires Inv(matches, s) && c < |s.callers|
    ensures var s' := NextStep(matches, s, c, addr, throws);
      s'.answers == s.answers
      || (s.callers[c] != Idle && s'.entries == s.entries && s'.heap == s.heap
          && |s'.callers| == |s.callers| && s'.callers[c] == Idle
          && s'.answers == s.answers + [Answer(c, s.callers[c].regex, MatchingNames(matches, s, s.callers[c].regex))])
  {
    hide CacheOk, ScanOk, DrainAndAnswer, Publish;
    var pc := s.callers[c];
    if pc.Check? || pc.Pin? || pc.Find? {
      if Ready(s.cache, pc.regex) {
        ReadyIsExact(matches, s, pc.regex);
      }
    } else if pc.Drain? {
      DrainAnswers(matches, s, c, pc.regex, throws);
    } else if pc.Scan? && pc.todo == {} {
      PublishedKeeps(matches, s, c);
      DrainAnswers(matches, s.(cache := Publish(s.cache, pc.regex, pc.done, pc.hits)), c, pc.regex, throws);
    }
  }

  /**
    Whatever is added, erased, overwritten, cleared or trimmed while a call scans off the
    lock, what it appends is exactly the names that match in the map at the instant it
    copies them, a step of its own between the call and its return.
   */
  lemma AnswersAreExact(matches: (string, string) -> bool, acts: seq<Action>, a: Action)
    requires Next(matches, Run(matches, acts), a).answers != Run(matches, acts).answers
    ensures var s, s' := Run(matches, acts), Next(matches, Run(matches, acts), a);
      && a.Step? && a.c < |s.callers| && |s'.callers| == |s.callers|
      && s.callers[a.c] != Idle && s'.callers[a.c] == Idle
      && s'.entries == s.entries && s'.heap == s.heap
      && s'.answers == s.answers + [Answer(a.c, s.callers[a.c].regex, MatchingNames(matches, s, s.callers[a.c].regex))]
  {
    hide Run, Inv, NextStep;
    RunKeeps(matches, acts);
    if a.Step? && a.c < |Run(matches, acts).callers| {
      StepAnswers(matches, Run(matches, acts), a.c, a.addr, a.throws);
    }
  }

  /** So every answer a run ever gave was exact at the instant of its own call that gave it. */
  lemma {:induction false} EveryAnswerWasExact(matches: (string, string) -> bool, acts: seq<Action>, i: nat)
    returns (k: nat)
    requires i < |Run(matches, acts).answers|
    ensures k < |acts|
    ensures |Run(matches, acts[..k]).answers| == i && |Run(matches, acts[..k + 1]).answers| == i + 1
    ensures var x, s := Run(matches, acts).answers[i], Run(matches, acts[..k]);
      Calling(s, x) && x.names == MatchingNames(matches, s, x.regex)
  {
    hide Next;
    var n := |acts| - 1;
    var s := Run(matches, acts[..n]);
    if i < |s.answers| {
      k := EveryAnswerWasExact(matches, acts[..n], i);
      assert acts[..n][..k] == acts[..k] && acts[..n][..k + 1] == acts[..k + 1];
      if Next(matches, s, acts[n]).answers != s.answers {
        AnswersAreExact(matches, acts[..n], acts[n]);
      }
    } else {
      AnswersAreExact(matches, acts[..n], acts[n]);
      k := n;
      assert acts[..k + 1] == acts;
    }
  }

  /** The scan reads no freed string. */
  lemma ScanReadsNoFreedString(matches: (string, string) -> bool, acts: seq<Action>, c: nat)
    requires c < |Run(matches, acts).callers| && Run(matches, acts).callers[c].Scan?
    ensures Run(matches, acts).callers[c].todo <= Run(matches, acts).heap.Keys
  {
    hide Run;
    RunKeeps(matches, acts);
    assert ScanOk(matches, Run(matches, acts), Run(matches, acts).callers[c]);
  }

  /**
    When the scan ends, unless its registration was purged meanwhile, publishing leaves on
    the queue only strings added since the scan began: the drain under the lock is bounded
    by that window.
   */
  lemma DrainIsBounded(matches: (string, string) -> bool, acts: seq<Action>, c: nat)
    requires var s := Run(matches, acts);
      && c < |s.callers| && s.callers[c].Scan? && s.callers[c].todo == {}
      && s.callers[c].regex in s.cache.builds && s.cache.builds[s.callers[c].regex].id == s.callers[c].id
    ensures var s := Run(matches, acts);
      var pc := s.callers[c];
      Publish(s.cache, pc.regex, pc.done, pc.hits).builds[pc.regex].queued <= s.entries - pc.pins
  {
    hide Run;
    RunKeeps(matches, acts);
    var s := Run(matches, acts);
    var pc := s.callers[c];
    assert ScanOk(matches, s, pc);
    QueueInUniverse(matches, s.heap, s.cache, pc.regex);
    assert forall a :: a in s.cache.builds[pc.regex].queued * pc.pins ==> a in pc.done;
  }

  /** The steps of a stretch of a run that are not the caller's own. */
  predicate Others(mid: seq<Action>, c: nat) {
    forall i :: 0 <= i < |mid| && mid[i].Step? ==> mid[i].c != c
  }

  lemma OthersLeaveCaller(matches: (string, string) -> bool, s: State, a: Action, c: nat)
    requires c < |s.callers| && s.callers[c] != Idle && (a.Step? ==> a.c != c)
    ensures c < |Next(matches, s, a).callers| && Next(matches, s, a).callers[c] == s.callers[c]
    ensures forall x :: x in Next(matches, s, a).answers && x !in s.answers ==> x.caller != c
  {
    hide Register, Prepare, Publish, Forget, Copied;
  }

  lemma {:induction false} StaysAbandoned(matches: (string, string) -> bool, acts: seq<Action>,
      mid: seq<Action>, c: nat)
    requires c < |Run(matches, acts).callers| && Run(matches, acts).callers[c].Abandon? && Others(mid, c)
    ensures c < |Run(matches, acts + mid).callers|
    ensures Run(matches, acts + mid).callers[c] == Run(matches, acts).callers[c]
    ensures forall x :: x in Run(matches, acts + mid).answers && x !in Run(matches, acts).answers ==> x.caller != c
  {
    hide Next;
    if mid == [] {
      assert acts + mid == acts;
    } else {
      var n := |mid| - 1;
      StaysAbandoned(matches, acts, mid[..n], c);
      assert (acts + mid)[..|acts + mid| - 1] == acts + mid[..n];
      OthersLeaveCaller(matches, Run(matches, acts + mid[..n]), mid[n], c);
    }
  }

  /**
    A scan that throws, followed to its return whatever others do in between: the throw
    itself changes nothing but where the caller stands; until it returns nothing is answered
    in its name and every entry it pinned stays in memory; and its return leaves its regex
    ready or unregistered, every other regex as it was, and no answer.
   */
  lemma ThrowIsScoped(matches: (string, string) -> bool, acts: seq<Action>, c: nat, a: nat, mid: seq<Action>,
      b: nat, throws: bool)
    requires var s := Run(matches, acts);
      c < |s.callers| && s.callers[c].Scan? && s.callers[c].todo != {}
    requires Others(mid, c)
    ensures var s, s1 := Run(matches, acts), Run(matches, acts + [Step(c, a, true)]);
      && s1.cache == s.cache && s1.entries == s.entries && s1.heap == s.heap && s1.answers == s.answers
    ensures var s, s2 := Run(matches, acts), Run(matches, acts + [Step(c, a, true)] + mid);
      && c < |s2.callers| && s.callers[c].pins <= s2.heap.Keys
      && (forall x :: x in s2.answers && x !in s.answers ==> x.caller != c)
    ensures var s, s2 := Run(matches, acts), Run(matches, acts + [Step(c, a, true)] + mid);
      var s3, regex := Next(matches, s2, Step(c, b, throws)), s.callers[c].regex;
      && (regex in s3.cache.builds ==> Ready(s3.cache, regex))
      && s3.cache.universe == s2.cache.universe && s3.cache.builds - {regex} == s2.cache.builds - {regex}
      && s3.answers == s2.answers && s3.callers[c] == Idle
  {
    var thrown := acts + [Step(c, a, true)];
    assert thrown[..|thrown| - 1] == acts;
    hide Run;
    assert Run(matches, thrown) == Next(matches, Run(matches, acts), Step(c, a, true)) by {
      OneMore(matches, acts, Step(c, a, true));
    }
    StaysAbandoned(matches, thrown, mid, c);
    RunKeeps(matches, thrown + mid);
    assert ScanOk(matches, Run(matches, thrown + mid), Run(matches, thrown + mid).callers[c]);
  }

  lemma OneMore(matches: (string, string) -> bool, acts: seq<Action>, a: Action)
    ensures Run(matches, acts + [a]) == Next(matches, Run(matches, acts), a)
  {
    hide Next;
    assert (acts + [a])[..|acts|] == acts;
  }
}
