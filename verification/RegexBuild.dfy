/**
  Finding the names that match a regex, as a step machine: a map of named entries and its
  regex-match cache behind one lock, any number of callers, some of whom scan names off the
  lock, and concurrent adds, erasures, overwrites, clears and cache trims.

  What a thread does while it holds the lock is one step; an off-lock scan takes one step a
  string.  The cache is folly's RegexMatchCache, which is not part of this model: the
  functions under "the cache" state what is assumed of it.
 */
module RegexBuild {
  // ----- the cache: an assumed contract -----

  /**
    A registered regex: the strings known to match it and those not yet scanned.  No step
    depends on `id`, which tells one registration from the next.
   */
  datatype Build = Build(matched: set<nat>, queued: set<nat>, id: nat)

  /** Strings are known by address. */
  datatype Cache = Cache(universe: set<nat>, builds: map<string, Build>, registered: nat)

  predicate Ready(c: Cache, regex: string) {
    regex in c.builds && c.builds[regex].queued == {}
  }

  function AddString(c: Cache, a: nat): Cache {
    c.(universe := c.universe + {a},
       builds := map r | r in c.builds :: c.builds[r].(queued := c.builds[r].queued + {a}))
  }

  function EraseString(c: Cache, a: nat): Cache {
    c.(universe := c.universe - {a},
       builds := map r | r in c.builds ::
         c.builds[r].(queued := c.builds[r].queued - {a}, matched := c.builds[r].matched - {a}))
  }

  /** Registers a regex with every string queued, unless it is registered already. */
  function Register(c: Cache, regex: string): Cache {
    if regex in c.builds then c
    else c.(builds := c.builds[regex := Build({}, c.universe, c.registered)], registered := c.registered + 1)
  }

  /** Takes scanned strings off the regex's queue, those the scan hit as matches. */
  function Publish(c: Cache, regex: string, done: set<nat>, hits: set<nat>): Cache {
    if regex !in c.builds then c
    else
      var b := c.builds[regex];
      c.(builds := c.builds[regex := b.(matched := b.matched + (hits * b.queued), queued := b.queued - done)])
  }

  /** Registers the regex and scans its whole queue. */
  function Prepare(matches: (string, string) -> bool, heap: map<nat, string>, c: Cache, regex: string): Cache {
    var c1 := Register(c, regex);
    var todo := c1.builds[regex].queued;
    Publish(c1, regex, todo, set a | a in todo && a in heap && matches(regex, heap[a]))
  }

  function Forget(c: Cache, regexes: set<string>): Cache {
    c.(builds := c.builds - regexes)
  }

  // ----- callers -----

  datatype Pc =
    | Idle
    | Check(regex: string)                 // cachedFindMatchesSnapshot()
    | Compile(regex: string)
    | Pin(regex: string)
    | Scan(regex: string, pins: set<nat>, id: nat, todo: set<nat>, done: set<nat>, hits: set<nat>)
    | Abandon(regex: string, pins: set<nat>)
    | Find(regex: string)                  // cachedFindMatches()
    | Drain(regex: string)

  /** What a call appended to its output. */
  datatype Answer = Answer(caller: nat, regex: string, names: set<string>)

  datatype State = State(
    heap: map<nat, string>,                // entries in memory, by address, with their names
    entries: set<nat>,                     // the map
    cache: Cache,
    callers: seq<Pc>,
    answers: seq<Answer>)

  const INIT := State(map[], {}, Cache({}, map[], 0), [], [])

  datatype Action =
    | Spawn
    | Begin(c: nat, regex: string, offLock: bool)
    | Step(c: nat, addr: nat, throws: bool) // addr: the string a scan takes next
    | Add(name: string, addr: nat, throws: bool)
    | Erase(addr: nat)
    | Overwrite(former: nat, addr: nat)    // registerCallback() over an existing name
    | Clear
    | Trim(regexes: set<string>)           // a purge, of any of the registered regexes
    | Free(addr: nat)

  /** The last shared_ptr to an entry is gone. */
  predicate Unreferenced(s: State, a: nat) {
    a !in s.entries
    && forall c :: 0 <= c < |s.callers| ==>
         ((s.callers[c].Scan? || s.callers[c].Abandon?) ==> a !in s.callers[c].pins)
  }

  predicate InMap(s: State, name: string) {
    exists a :: a in s.entries && a in s.heap && s.heap[a] == name
  }

  function Put(s: State, c: nat, pc: Pc): State
    requires c < |s.callers|
  {
    s.(callers := s.callers[c := pc])
  }

  /** Copies the cached matches out and returns. */
  function Answered(s: State, c: nat, regex: string): State
    requires c < |s.callers|
  {
    Put(s, c, Idle).(answers := s.answers + [Answer(c, regex, Copied(s, regex))])
  }

  function Copied(s: State, regex: string): set<string> {
    if regex in s.cache.builds then set a | a in s.cache.builds[regex].matched && a in s.heap :: s.heap[a] else {}
  }

  /** prepareToFindMatches() when it throws purges every cached regex. */
  function DrainAndAnswer(matches: (string, string) -> bool, s: State, c: nat, regex: string, throws: bool): State
    requires c < |s.callers|
  {
    if Ready(s.cache, regex) then Answered(s, c, regex)
    else if throws then Put(s, c, Idle).(cache := Forget(s.cache, s.cache.builds.Keys))
    else Answered(s.(cache := Prepare(matches, s.heap, s.cache, regex)), c, regex)
  }

  function NextStep(matches: (string, string) -> bool, s: State, c: nat, addr: nat, throws: bool): State
    requires c < |s.callers|
  {
    match s.callers[c]
    case Check(regex) =>
      if Ready(s.cache, regex) then Answered(s, c, regex)
      else Put(s, c, if s.entries == {} then Find(regex) else Compile(regex))
    case Compile(regex) => Put(s, c, if throws then Idle else Pin(regex))
    case Pin(regex) =>
      if Ready(s.cache, regex) then Answered(s, c, regex)
      else
        var cache := Register(s.cache, regex);
        var b := cache.builds[regex];
        Put(s, c, Scan(regex, s.entries, b.id, b.queued, {}, {})).(cache := cache)
    case Scan(regex, pins, id, todo, done, hits) =>
      if todo == {} then
        DrainAndAnswer(matches, s.(cache := Publish(s.cache, regex, done, hits)), c, regex, throws)
      else if throws then Put(s, c, Abandon(regex, pins))
      else if addr in todo && addr in s.heap then
        Put(s, c, Scan(regex, pins, id, todo - {addr}, done + {addr},
                       if matches(regex, s.heap[addr]) then hits + {addr} else hits))
      else s
    case Abandon(regex, _) =>
      Put(s, c, Idle).(cache := if Ready(s.cache, regex) then s.cache else Forget(s.cache, {regex}))
    case Find(regex) =>
      if Ready(s.cache, regex) then Answered(s, c, regex) else Put(s, c, Drain(regex))
    case Drain(regex) => DrainAndAnswer(matches, s, c, regex, throws)
    case Idle => s
  }

  function AddEntry(s: State, name: string, addr: nat): State {
    s.(heap := s.heap[addr := name], entries := s.entries + {addr}, cache := AddString(s.cache, addr))
  }

  function EraseEntry(s: State, addr: nat): State {
    s.(entries := s.entries - {addr}, cache := EraseString(s.cache, addr))
  }

  /** One step; an action that is not enabled changes nothing. */
  function Next(matches: (string, string) -> bool, s: State, a: Action): State {
    match a
    case Spawn => s.(callers := s.callers + [Idle])
    case Begin(c, regex, offLock) =>
      if c < |s.callers| && s.callers[c] == Idle
      then Put(s, c, if offLock then Check(regex) else Find(regex)) else s
    case Step(c, addr, throws) => if c < |s.callers| then NextStep(matches, s, c, addr, throws) else s
    case Add(name, addr, throws) =>
      // an add that throws is rolled back: the string is in neither the map nor the cache
      if addr in s.heap || InMap(s, name) || throws then s else AddEntry(s, name, addr)
    case Erase(addr) => if addr in s.entries then EraseEntry(s, addr) else s
    case Overwrite(former, addr) =>
      if former in s.entries && former in s.heap && addr !in s.heap
      then AddEntry(EraseEntry(s, former), s.heap[former], addr) else s
    case Clear => s.(entries := {}, cache := s.cache.(universe := {}, builds := map[]))
    case Trim(regexes) => s.(cache := Forget(s.cache, regexes))
    case Free(addr) => if Unreferenced(s, addr) then s.(heap := s.heap - {addr}) else s
  }

  function Run(matches: (string, string) -> bool, acts: seq<Action>): State {
    if acts == [] then INIT else Next(matches, Run(matches, acts[..|acts| - 1]), acts[|acts| - 1])
  }

  // ----- the invariant -----

  /** Every string off a regex's queue is filed as its name says. */
  predicate Filed(matches: (string, string) -> bool, heap: map<nat, string>, universe: set<nat>, regex: string,
      b: Build) {
    && b.queued <= universe && b.matched <= universe - b.queued
    && (forall a :: a in universe && a in heap && a !in b.queued ==> (a in b.matched <==> matches(regex, heap[a])))
  }

  predicate CacheOk(matches: (string, string) -> bool, heap: map<nat, string>, c: Cache) {
    && (forall r :: r in c.builds ==> Filed(matches, heap, c.universe, r, c.builds[r]))
    && (forall r :: r in c.builds ==> c.builds[r].id < c.registered)
  }

  predicate MapOk(s: State) {
    && s.cache.universe == s.entries && s.entries <= s.heap.Keys
    && (forall a, b :: a in s.entries && b in s.entries && s.heap[a] == s.heap[b] ==> a == b)
  }

  /** A scan knows what it has seen, of strings that stay where they are. */
  predicate ScanOk(matches: (string, string) -> bool, s: State, pc: Pc) {
    match pc
    case Scan(regex, pins, id, todo, done, hits) =>
      && pins <= s.heap.Keys && todo + done <= pins && hits <= done
      && (forall a :: a in done ==> (a in hits <==> matches(regex, s.heap[a])))
      && id < s.cache.registered
      && (regex in s.cache.builds && s.cache.builds[regex].id == id ==>
            s.cache.builds[regex].queued * pins <= todo + done)
    case Abandon(_, pins) => pins <= s.heap.Keys
    case _ => true
  }

  ghost predicate Inv(matches: (string, string) -> bool, s: State) {
    && MapOk(s)
    && CacheOk(matches, s.heap, s.cache)
    && (forall c :: 0 <= c < |s.callers| ==> ScanOk(matches, s, s.callers[c]))
  }

  /** The names in the map that match. */
  function MatchingNames(matches: (string, string) -> bool, s: State, regex: string): set<string> {
    set a | a in s.entries && a in s.heap && matches(regex, s.heap[a]) :: s.heap[a]
  }
}
