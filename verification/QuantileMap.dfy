/**
  The quantile stat map: one entry for every derived name of every registered base, added
  and removed a family at a time.
 */
module QuantileMap {
  import opened Decimals
  import opened Options

  /** An export type; a quantile is known by the text {:g} gives for it times 100. */
  datatype StatDef = Percent(text: string) | Sum | Count | Avg | Rate

  /** A quantile stat: its identity and its sliding window lengths in seconds. */
  datatype Stat = Stat(id: nat, windows: seq<int>)

  datatype Entry = Entry(name: string, stat: Stat, def: StatDef, window: Option<int>)

  datatype Base = Base(stat: Stat, defs: seq<StatDef>)

  // ----- names -----

  function TypeText(def: StatDef): string {
    match def
    case Percent(text) => "p" + text
    case Sum => "sum"
    case Count => "count"
    case Avg => "avg"
    case Rate => "rate"
  }

  /** The window's part of a name. */
  function Tail(window: Option<int>): string {
    match window case None => "" case Some(w) => "." + IntText(w)
  }

  function Suffix(def: StatDef, window: Option<int>): string {
    TypeText(def) + Tail(window)
  }

  function MakeKey(base: string, def: StatDef, window: Option<int>): string {
    base + "." + Suffix(def, window)
  }

  /** The text of every derived name, without and with a window. */
  lemma KeyTexts(base: string, text: string, w: int)
    ensures MakeKey(base, Percent(text), None) == base + ".p" + text
    ensures MakeKey(base, Percent(text), Some(w)) == base + ".p" + text + "." + IntText(w)
    ensures MakeKey(base, Sum, None) == base + ".sum" && MakeKey(base, Sum, Some(w)) == base + ".sum." + IntText(w)
    ensures MakeKey(base, Count, None) == base + ".count"
    ensures MakeKey(base, Count, Some(w)) == base + ".count." + IntText(w)
    ensures MakeKey(base, Avg, None) == base + ".avg" && MakeKey(base, Avg, Some(w)) == base + ".avg." + IntText(w)
    ensures MakeKey(base, Rate, None) == base + ".rate" && MakeKey(base, Rate, Some(w)) == base + ".rate." + IntText(w)
  {
    hide IntText;
    assert base + "." + ("p" + text + ("." + IntText(w))) == base + ".p" + text + "." + IntText(w);
    assert base + "." + ("sum" + ("." + IntText(w))) == base + ".sum." + IntText(w);
    assert base + "." + ("count" + ("." + IntText(w))) == base + ".count." + IntText(w);
    assert base + "." + ("avg" + ("." + IntText(w))) == base + ".avg." + IntText(w);
    assert base + "." + ("rate" + ("." + IntText(w))) == base + ".rate." + IntText(w);
    assert base + "." + ("p" + text + "") == base + ".p" + text;
    assert base + "." + ("sum" + "") == base + ".sum" && base + "." + ("count" + "") == base + ".count";
    assert base + "." + ("avg" + "") == base + ".avg" && base + "." + ("rate" + "") == base + ".rate";
  }

  /** What {:g} gives for a double: any point is followed by a digit, and inf and nan have none. */
  predicate FiniteText(text: string) {
    forall i :: 0 <= i < |text| && text[i] == '.' ==> i + 1 < |text| && IsDigit(text[i + 1])
  }

  predicate Finite(defs: seq<StatDef>) {
    forall d :: d in defs && d.Percent? ==> FiniteText(d.text)
  }

  predicate IsLetter(c: char) { 'a' <= c <= 'z' }

  /** A point followed by a letter. */
  predicate Mark(key: string, i: int) {
    0 <= i && i + 1 < |key| && key[i] == '.' && IsLetter(key[i + 1])
  }

  function LastMark(key: string, n: nat): (i: int)
    ensures i < n && (i >= 0 ==> Mark(key, i)) && forall j :: i < j < n ==> !Mark(key, j)
  {
    if n == 0 then -1 else if Mark(key, n - 1) then n - 1 else LastMark(key, n - 1)
  }

  /** The base of a derived name: what comes before its last point with a letter after it. */
  function BaseOf(key: string): string {
    var i := LastMark(key, |key|);
    if i >= 0 then key[..i] else key
  }

  lemma SuffixMarks(def: StatDef, window: Option<int>)
    requires def.Percent? ==> FiniteText(def.text)
    ensures var s := Suffix(def, window); s != "" && IsLetter(s[0]) && forall i :: 0 <= i < |s| ==> !Mark(s, i)
  {
    var t, s := TypeText(def), Suffix(def, window);
    assert s[..|t|] == t;
    if window.Some? {
      IntTextShape(window.value);
      assert s[|t|..] == "." + IntText(window.value);
    }
    forall i | 0 <= i < |s| ensures !Mark(s, i) {
      if i < |t| {
        assert s[i] == t[i];
        if def.Percent? && i > 0 && t[i] == '.' {
          assert def.text[i - 1] == '.' && s[i + 1] == t[i + 1] == def.text[i];
        }
      } else {
        assert s[i] == s[|t|..][i - |t|];
      }
    }
  }

  /** The base can be read back off any key that makeKey() builds from a finite quantile. */
  lemma BaseIsRecoverable(base: string, def: StatDef, window: Option<int>)
    requires def.Percent? ==> FiniteText(def.text)
    ensures BaseOf(MakeKey(base, def, window)) == base
  {
    var s, key, n := Suffix(def, window), MakeKey(base, def, window), |base|;
    SuffixMarks(def, window);
    assert key[n] == '.' && key[n + 1..] == s && key[..n] == base;
    assert key[n + 1] == s[0];
    assert Mark(key, n);
    forall j | n < j < |key| ensures !Mark(key, j) {
      assert key[j] == s[j - n - 1];
      assert j + 1 < |key| ==> key[j + 1] == s[j - n];
      assert !Mark(s, j - n - 1);
    }
  }

  /** An all-time percentile whose text is another's followed by a point and the other's window. */
  predicate Shadows(d: StatDef, w: Option<int>, e: StatDef, v: Option<int>) {
    d.Percent? && e.Percent? && w == None && v.Some? && d.text == e.text + Tail(v)
  }

  /** The last point of a text splits it in one way only. */
  lemma LastPoint(a: string, x: string, b: string, y: string)
    requires a + "." + x == b + "." + y && '.' !in x && '.' !in y
    ensures a == b && x == y
  {
    var s := a + "." + x;
    assert s[|a|] == '.' && s[|b|] == '.';
    forall k | |a| < k < |s| ensures s[k] != '.' {
      assert s[k] == x[k - |a| - 1];
    }
    forall k | |b| < k < |s| ensures s[k] != '.' {
      assert s[k] == y[k - |b| - 1];
    }
    assert a == s[..|a|] && b == s[..|b|] && x == s[|a| + 1..] && y == s[|b| + 1..];
  }

  lemma NoPoint(i: int)
    ensures '.' !in IntText(i)
  {
    IntTextShape(i);
  }

  /** With texts in front, windows and all. */
  lemma TailsSplit(a: string, w: Option<int>, b: string, v: Option<int>)
    requires a + Tail(w) == b + Tail(v)
    ensures w == None && v == None ==> a == b
    ensures w.Some? && v.Some? ==> a == b && w == v
  {
    if w.Some? && v.Some? {
      NoPoint(w.value);
      NoPoint(v.value);
      assert a + "." + IntText(w.value) == a + Tail(w) && b + "." + IntText(v.value) == b + Tail(v);
      LastPoint(a, IntText(w.value), b, IntText(v.value));
      IntTextInjective(w.value, v.value);
    } else {
      assert w == None ==> a + Tail(w) == a;
      assert v == None ==> b + Tail(v) == b;
    }
  }

  lemma SuffixIs(def: StatDef, window: Option<int>)
    ensures Suffix(def, window) == TypeText(def) + Tail(window)
    ensures Suffix(def, window)[..|TypeText(def)|] == TypeText(def)
    ensures Suffix(def, window)[|TypeText(def)|..] == Tail(window)
  {}

  lemma SameKind(d: StatDef, w: Option<int>, e: StatDef, v: Option<int>)
    requires Suffix(d, w) == Suffix(e, v)
    ensures d.Percent? == e.Percent? && (!d.Percent? ==> d == e && Tail(w) == Tail(v))
  {
    SuffixIs(d, w);
    SuffixIs(e, v);
    assert Suffix(d, w)[0] == TypeText(d)[0] && Suffix(e, v)[0] == TypeText(e)[0];
  }

  lemma TailInjective(w: Option<int>, v: Option<int>)
    requires Tail(w) == Tail(v)
    ensures w == v
  {
    if w.Some? && v.Some? {
      assert Tail(w)[1..] == IntText(w.value) && Tail(v)[1..] == IntText(v.value);
      IntTextInjective(w.value, v.value);
    }
  }

  lemma PercentSuffix(text: string, window: Option<int>)
    ensures Suffix(Percent(text), window) == "p" + (text + Tail(window))
    ensures Suffix(Percent(text), window)[1..] == text + Tail(window)
  {
    assert "p" + text + Tail(window) == "p" + (text + Tail(window));
  }

  lemma SuffixesCoincideIff(d: StatDef, w: Option<int>, e: StatDef, v: Option<int>)
    ensures Suffix(d, w) == Suffix(e, v) <==> (d == e && w == v) || Shadows(d, w, e, v) || Shadows(e, v, d, w)
  {
    hide Suffix, Tail;
    if d.Percent? && e.Percent? {
      PercentSuffix(d.text, w);
      PercentSuffix(e.text, v);
      TailOfNone(d.text);
      TailOfNone(e.text);
      if Suffix(d, w) == Suffix(e, v) {
        TailsSplit(d.text, w, e.text, v);
      }
    } else if Suffix(d, w) == Suffix(e, v) {
      SameKind(d, w, e, v);
      TailInjective(w, v);
    }
  }

  lemma TailOfNone(text: string)
    ensures text + Tail(None) == text
  {}

  /**
    When two derived names are equal, for any texts {:g} gives: their bases are equal, and
    either they are one export over one window, or one is an all-time percentile that shadows
    the other.
   */
  lemma NamesCoincideIff(base: string, d: StatDef, w: Option<int>, other: string, e: StatDef, v: Option<int>)
    requires (d.Percent? ==> FiniteText(d.text)) && (e.Percent? ==> FiniteText(e.text))
    ensures MakeKey(base, d, w) == MakeKey(other, e, v)
       <==> base == other && ((d == e && w == v) || Shadows(d, w, e, v) || Shadows(e, v, d, w))
  {
    hide Suffix, Shadows, BaseOf;
    SuffixesCoincideIff(d, w, e, v);
    if MakeKey(base, d, w) == MakeKey(other, e, v) {
      BaseIsRecoverable(base, d, w);
      BaseIsRecoverable(other, e, v);
      assert MakeKey(base, d, w)[|base| + 1..] == Suffix(d, w) && MakeKey(other, e, v)[|other| + 1..] == Suffix(e, v);
    }
  }

  /** One that does: the 99th percentile over 9 seconds is named like the 99.9th of all time. */
  lemma NamesCanCoincide(base: string)
    ensures MakeKey(base, Percent("99"), Some(9)) == MakeKey(base, Percent("99.9"), None)
  {
    assert Decimal(9) == "9";
    assert "99" + Tail(Some(9)) == "99.9";
    SuffixesCoincideIff(Percent("99.9"), None, Percent("99"), Some(9));
  }

  // ----- families -----

  function MakeEntry(base: string, stat: Stat, def: StatDef, window: Option<int>): Entry {
    Entry(MakeKey(base, def, window), stat, def, window)
  }

  /** A stat def's entries: all time, then the first n windows. */
  function DefEntries(base: string, stat: Stat, def: StatDef, n: nat): seq<Entry>
    requires n <= |stat.windows|
  {
    if n == 0 then [MakeEntry(base, stat, def, None)]
    else DefEntries(base, stat, def, n - 1) + [MakeEntry(base, stat, def, Some(stat.windows[n - 1]))]
  }

  function Entries(base: string, stat: Stat, defs: seq<StatDef>): seq<Entry> {
    if defs == [] then []
    else Entries(base, stat, defs[..|defs| - 1]) + DefEntries(base, stat, defs[|defs| - 1], |stat.windows|)
  }

  function Names(entries: seq<Entry>): (names: set<string>)
    ensures forall e :: e in entries ==> e.name in names
  {
    set e | e in entries :: e.name
  }

  function Family(base: string, b: Base): set<string> { Names(Entries(base, b.stat, b.defs)) }

  lemma NamesConcat(a: seq<Entry>, b: seq<Entry>)
    ensures Names(a + b) == Names(a) + Names(b)
  {}

  lemma NamesAppend(a: seq<Entry>, e: Entry)
    ensures Names(a + [e]) == Names(a) + {e.name}
  {
    NamesConcat(a, [e]);
    assert Names([e]) == {e.name};
  }

  lemma {:induction false} DefEntriesBase(base: string, stat: Stat, def: StatDef, n: nat, e: Entry)
    requires n <= |stat.windows| && (def.Percent? ==> FiniteText(def.text)) && e in DefEntries(base, stat, def, n)
    ensures BaseOf(e.name) == base && e.stat == stat && e.def == def && e.name == MakeKey(base, def, e.window)
  {
    hide BaseOf, MakeKey, FiniteText;
    if n > 0 && e in DefEntries(base, stat, def, n - 1) {
      DefEntriesBase(base, stat, def, n - 1, e);
    } else {
      BaseIsRecoverable(base, def, e.window);
    }
  }

  lemma {:induction false} EntriesBase(base: string, stat: Stat, defs: seq<StatDef>, e: Entry)
    requires Finite(defs) && e in Entries(base, stat, defs)
    ensures BaseOf(e.name) == base && e.stat == stat && e.def in defs && e.name == MakeKey(base, e.def, e.window)
  {
    var n := |defs| - 1;
    if e in Entries(base, stat, defs[..n]) {
      EntriesBase(base, stat, defs[..n], e);
    } else {
      DefEntriesBase(base, stat, defs[n], |stat.windows|, e);
    }
  }

  lemma FamilyBase(base: string, b: Base, key: string)
    requires Finite(b.defs) && key in Family(base, b)
    ensures BaseOf(key) == base
  {
    var e :| e in Entries(base, b.stat, b.defs) && e.name == key;
    EntriesBase(base, b.stat, b.defs, e);
  }

  /** Two bases have no derived name in common. */
  lemma FamiliesAreDisjoint(base: string, b: Base, other: string, o: Base)
    requires base != other && Finite(b.defs) && Finite(o.defs)
    ensures Family(base, b) !! Family(other, o)
  {
    forall key | key in Family(base, b) && key in Family(other, o) ensures false {
      FamilyBase(base, b, key);
      FamilyBase(other, o, key);
    }
  }

  // ----- the map -----

  /** Adds entries in order; a name already there keeps its entry. */
  function Added(names: map<string, Entry>, entries: seq<Entry>): map<string, Entry> {
    if entries == [] then names
    else
      var before, e := Added(names, entries[..|entries| - 1]), entries[|entries| - 1];
      if e.name in before then before else before[e.name := e]
  }

  lemma {:induction false} AddedNames(names: map<string, Entry>, entries: seq<Entry>)
    ensures Added(names, entries).Keys == names.Keys + Names(entries)
    ensures forall k :: k in names ==> Added(names, entries)[k] == names[k]
    ensures forall k :: k in Added(names, entries) && k !in names ==>
      Added(names, entries)[k] in entries && Added(names, entries)[k].name == k
  {
    if entries == [] {
      assert Names([]) == {};
    } else {
      hide Names;
      var n := |entries| - 1;
      AddedNames(names, entries[..n]);
      NamesAppend(entries[..n], entries[n]);
      assert entries[..n] + [entries[n]] == entries;
    }
  }

  /** Of the entries of one name the first is kept, where the map had none of that name. */
  lemma {:induction false} FirstEntryWins(names: map<string, Entry>, entries: seq<Entry>, i: nat)
    requires i < |entries| && entries[i].name !in names
    requires forall j :: 0 <= j < i ==> entries[j].name != entries[i].name
    ensures entries[i].name in Added(names, entries) && Added(names, entries)[entries[i].name] == entries[i]
  {
    var n := |entries| - 1;
    if i < n {
      FirstEntryWins(names, entries[..n], i);
    } else {
      NotYetAdded(names, entries[..n], entries[i].name);
    }
  }

  lemma {:induction false} NotYetAdded(names: map<string, Entry>, entries: seq<Entry>, name: string)
    requires name !in names && forall j :: 0 <= j < |entries| ==> entries[j].name != name
    ensures name !in Added(names, entries)
  {
    if entries != [] {
      NotYetAdded(names, entries[..|entries| - 1], name);
    }
  }

  /** A stat def's entries in order: all time, then window by window. */
  lemma {:induction false} DefEntriesAt(base: string, stat: Stat, def: StatDef, n: nat, j: nat)
    requires j <= n <= |stat.windows|
    ensures |DefEntries(base, stat, def, n)| == n + 1
    ensures DefEntries(base, stat, def, n)[j]
         == MakeEntry(base, stat, def, if j == 0 then None else Some(stat.windows[j - 1]))
  {
    hide MakeEntry;
    if n > 0 {
      DefEntriesAt(base, stat, def, n - 1, if j < n then j else 0);
    }
  }

  predicate Offered(stat: Stat, window: Option<int>) {
    window.Some? ==> window.value in stat.windows
  }

  lemma DefEntriesIff(base: string, stat: Stat, def: StatDef, e: Entry)
    ensures e in DefEntries(base, stat, def, |stat.windows|)
       <==> e == MakeEntry(base, stat, def, e.window) && Offered(stat, e.window)
  {
    hide DefEntries, MakeKey;
    var n := |stat.windows|;
    DefEntriesAt(base, stat, def, n, 0);
    var es := DefEntries(base, stat, def, n);
    if e in es {
      var j :| 0 <= j < |es| && es[j] == e;
      DefEntriesAt(base, stat, def, n, j);
    }
    if e == MakeEntry(base, stat, def, e.window) && Offered(stat, e.window) {
      if e.window.Some? {
        var j :| 0 <= j < n && stat.windows[j] == e.window.value;
        DefEntriesAt(base, stat, def, n, j + 1);
      }
    }
  }

  /** A family's entries: one for each stat def, all time and over each of the stat's windows, and no others. */
  lemma {:induction false} EntriesIff(base: string, stat: Stat, defs: seq<StatDef>, e: Entry)
    ensures e in Entries(base, stat, defs)
       <==> e.def in defs && e == MakeEntry(base, stat, e.def, e.window) && Offered(stat, e.window)
  {
    hide DefEntries, MakeKey, Offered;
    if defs != [] {
      var n := |defs| - 1;
      EntriesIff(base, stat, defs[..n], e);
      DefEntriesIff(base, stat, defs[n], e);
      assert defs == defs[..n] + [defs[n]];
    }
  }

  /** A name's entry is one of its base's. */
  predicate EntryOk(e: Entry, key: string, bases: map<string, Base>) {
    && e.name == key && BaseOf(key) in bases
    && e in Entries(BaseOf(key), bases[BaseOf(key)].stat, bases[BaseOf(key)].defs)
  }

  /** The names are the families', and their entries their own. */
  ghost predicate Families(names: map<string, Entry>, bases: map<string, Base>) {
    && (forall b :: b in bases ==> Finite(bases[b].defs))
    && (forall k :: k in names <==> BaseOf(k) in bases && k in Family(BaseOf(k), bases[BaseOf(k)]))
    && (forall k :: k in names ==> EntryOk(names[k], k, bases))
  }

  class QuantileStatMap {
    var names: map<string, Entry>
    var bases: map<string, Base>

    ghost predicate Valid()
      reads this
    {
      Families(names, bases)
    }

    constructor ()
      ensures Valid() && names == map[] && bases == map[]
    {
      names, bases := map[], map[];
    }

    /** registerQuantileStat(): the stat registered for the base, this one or an earlier one. */
    method RegisterQuantileStat(name: string, stat: Stat, defs: seq<StatDef>) returns (registered: Stat)
      requires Valid() && Finite(defs)
      modifies this
      ensures Valid()
      ensures name in old(bases) ==> registered == old(bases)[name].stat && names == old(names) && bases == old(bases)
      ensures name !in old(bases) ==>
        && registered == stat && bases == old(bases)[name := Base(stat, defs)]
        && names == Added(old(names), Entries(name, stat, defs))
    {
      hide Families, EntryOk, BaseOf, MakeKey, Added;
      if name in bases {
        return bases[name].stat;
      }
      var entries := [];
      for i := 0 to |defs|
        invariant entries == Entries(name, stat, defs[..i]) && names == old(names) && bases == old(bases)
      {
        EntriesUpTo(name, stat, defs, i);
        entries := entries + [MakeEntry(name, stat, defs[i], None)];
        for j := 0 to |stat.windows|
          invariant entries == Entries(name, stat, defs[..i]) + DefEntries(name, stat, defs[i], j)
        {
          entries := entries + [MakeEntry(name, stat, defs[i], Some(stat.windows[j]))];
        }
      }
      assert defs[..|defs|] == defs;
      registered := AddFamily(name, stat, defs, entries);
    }

    /** The part under the exclusive lock, entered by any thread that found the base absent before. */
    method AddFamily(name: string, stat: Stat, defs: seq<StatDef>, entries: seq<Entry>) returns (registered: Stat)
      requires Valid() && Finite(defs) && entries == Entries(name, stat, defs)
      modifies this
      ensures Valid()
      ensures name in old(bases) ==> registered == old(bases)[name].stat && names == old(names) && bases == old(bases)
      ensures name !in old(bases) ==>
        registered == stat && bases == old(bases)[name := Base(stat, defs)] && names == Added(old(names), entries)
    {
      hide Families, Entries, EntryOk, BaseOf, MakeKey;
      if name in bases {
        return bases[name].stat;
      }
      for i := 0 to |entries|
        invariant names == Added(old(names), entries[..i]) && bases == old(bases)
      {
        assert entries[..i + 1][..i] == entries[..i];
        if entries[i].name !in names {
          names := names[entries[i].name := entries[i]];
        }
      }
      assert entries[..|entries|] == entries;
      bases := bases[name := Base(stat, defs)];
      registered := stat;
      RegisteredValid(old(names), old(bases), name, stat, defs);
    }

    /** forgetStatsFor(): takes exactly the base's family away. */
    method ForgetStatsFor(name: string)
      requires Valid()
      modifies this
      ensures Valid() && bases == old(bases) - {name}
      ensures names == if name in old(bases) then old(names) - Family(name, old(bases)[name]) else old(names)
    {
      if name !in bases {
        NothingToForget(bases, name);
        return;
      }
      hide Names, DefEntries, Entries, Families;
      var stat, defs := bases[name].stat, bases[name].defs;
      NothingEntered(name, stat, names);
      assert defs[..0] == [];
      for i := 0 to |defs|
        invariant names == old(names) - Names(Entries(name, stat, defs[..i])) && bases == old(bases)
      {
        EntriesUpTo(name, stat, defs, i);
        ForgetDef(name, stat, defs[i], old(names), Entries(name, stat, defs[..i]));
      }
      assert defs[..|defs|] == defs;
      bases := bases - {name};
      ForgottenValid(old(names), old(bases), name);
    }

    /** One turn of the outer loop: the names of one stat def. */
    method ForgetDef(name: string, stat: Stat, def: StatDef, ghost all: map<string, Entry>, ghost done: seq<Entry>)
      requires names == all - Names(done)
      modifies this`names
      ensures names == all - Names(done + DefEntries(name, stat, def, |stat.windows|))
    {
      hide Names, MakeKey;
      var key := MakeKey(name, def, None);
      EraseOne(all, done, MakeEntry(name, stat, def, None));
      if key in names {
        names := names - {key};
      }
      for j := 0 to |stat.windows|
        invariant names == all - Names(done + DefEntries(name, stat, def, j))
      {
        var keyWithWindow := MakeKey(name, def, Some(stat.windows[j]));
        ghost var e := MakeEntry(name, stat, def, Some(stat.windows[j]));
        EraseOne(all, done + DefEntries(name, stat, def, j), e);
        assert done + DefEntries(name, stat, def, j) + [e] == done + DefEntries(name, stat, def, j + 1);
        if keyWithWindow in names {
          names := names - {keyWithWindow};
        }
      }
    }

    /** forgetAll() */
    method ForgetAll()
      modifies this
      ensures Valid() && names == map[] && bases == map[]
    {
      names, bases := map[], map[];
    }
  }

  lemma RegisteredValid(names: map<string, Entry>, bases: map<string, Base>, name: string, stat: Stat,
      defs: seq<StatDef>)
    requires Families(names, bases) && Finite(defs) && name !in bases
    ensures Families(Added(names, Entries(name, stat, defs)), bases[name := Base(stat, defs)])
  {
    hide BaseOf, MakeKey, Entries, Added, Names;
    var es, bases' := Entries(name, stat, defs), bases[name := Base(stat, defs)];
    var names' := Added(names, es);
    AddedNames(names, es);
    forall k ensures k in names' <==> BaseOf(k) in bases' && k in Family(BaseOf(k), bases'[BaseOf(k)]) {
      if k in Names(es) {
        FamilyBase(name, Base(stat, defs), k);
      }
    }
    forall k | k in names' ensures EntryOk(names'[k], k, bases') {
      if k in names {
        assert EntryOk(names[k], k, bases);
      } else {
        FamilyBase(name, Base(stat, defs), k);
      }
    }
  }

  lemma ForgottenValid(names: map<string, Entry>, bases: map<string, Base>, name: string)
    requires Families(names, bases) && name in bases
    ensures Families(names - Family(name, bases[name]), bases - {name})
  {
    hide BaseOf, MakeKey, Entries;
    var bases' := bases - {name};
    var names' := names - Family(name, bases[name]);
    forall k ensures k in names' <==> BaseOf(k) in bases' && k in Family(BaseOf(k), bases'[BaseOf(k)]) {
      if k in Family(name, bases[name]) {
        FamilyBase(name, bases[name], k);
      }
    }
    forall k | k in names' ensures EntryOk(names'[k], k, bases') {
      assert EntryOk(names[k], k, bases);
    }
  }

  lemma NothingToForget(bases: map<string, Base>, name: string)
    requires name !in bases
    ensures bases - {name} == bases
  {}

  lemma NothingEntered(base: string, stat: Stat, names: map<string, Entry>)
    ensures names - Names(Entries(base, stat, [])) == names
  {
    assert Names([]) == {};
  }

  lemma EntriesUpTo(base: string, stat: Stat, defs: seq<StatDef>, i: nat)
    requires i < |defs|
    ensures Entries(base, stat, defs[..i + 1])
         == Entries(base, stat, defs[..i]) + DefEntries(base, stat, defs[i], |stat.windows|)
  {
    assert defs[..i + 1][..i] == defs[..i];
  }

  lemma EraseOne(names: map<string, Entry>, done: seq<Entry>, e: Entry)
    ensures var left := names - Names(done);
      names - Names(done + [e]) == if e.name in left then left - {e.name} else left
  {
    NamesAppend(done, e);
  }

  // ----- what the names are -----

  /** The map's names are the union, over the registered bases, of their families. */
  lemma NamesAreTheUnion(names: map<string, Entry>, bases: map<string, Base>)
    requires Families(names, bases)
    ensures names.Keys == set b, k | b in bases && k in Family(b, bases[b]) :: k
  {
    hide BaseOf, Family;
    forall b, k | b in bases && k in Family(b, bases[b]) ensures k in names {
      FamilyBase(b, bases[b], k);
    }
  }

  /** Registering a base and then forgetting it restores the map. */
  lemma ForgetUndoesRegister(names: map<string, Entry>, bases: map<string, Base>, name: string, b: Base)
    requires Families(names, bases) && name !in bases && Finite(b.defs)
    ensures Added(names, Entries(name, b.stat, b.defs)) - Family(name, b) == names
    ensures bases[name := b] - {name} == bases
  {
    hide BaseOf, Entries, Added;
    AddedNames(names, Entries(name, b.stat, b.defs));
    forall k | k in Family(name, b) ensures k !in names {
      FamilyBase(name, b, k);
    }
  }
}
