/**
 mergeRawChanges on the text of a configuration file: agent headers, key lines, and the
 values the editor writes back without touching the rest.
 */
module YamlEdit {
  import opened Wrappers
  import opened Text
  import Blocks
  import Frame

  /** The fields of an agent that are written back. */
  datatype Field = Model | Runner | MaxWorkers

  function KeyText(f: Field): (k: string)
    ensures |k| >= 2 && ':' !in k && !IsSpace(k[0]) && k[0] != '-'
  {
    match f
    case Model => ['m', 'o', 'd', 'e', 'l']
    case Runner => ['r', 'u', 'n', 'n', 'e', 'r']
    case MaxWorkers => ['m', 'a', 'x', '_', 'w', 'o', 'r', 'k', 'e', 'r', 's']
  }

  const ID := ['-', ' ', 'i', 'd', ':', ' ']

  function LeadingSpaces(s: string): (n: nat)
    ensures n <= |s|
  {
    if s != [] && s[0] == ' ' then 1 + LeadingSpaces(s[1..]) else 0
  }

  function Colon(s: string): (i: nat)
    ensures i <= |s| && (i < |s| ==> s[i] == ':') && forall j :: 0 <= j < i ==> s[j] != ':'
  {
    Blocks.First(s, (c: char) => c == ':')
  }

  /** setYAMLValue. */
  function SetYamlValue(line: string, value: string): (r: string) {
    var i := Colon(line);
    if i == |line| then line else line[..i + 1] + [' '] + value
  }

  predicate HasKey(line: string, f: Field) {
    KeyText(f) + [':'] <= TrimSpace(line)
  }

  predicate IsHeader(line: string, id: string) {
    TrimSpace(line) == ID + id
  }

  function Blanks(n: nat): (r: string) {
    seq(n, i => ' ')
  }

  function KeyValueLine(indent: nat, f: Field, value: string): (r: string) {
    Blanks(indent + 2) + KeyText(f) + [':'] + [' '] + value
  }

  function Yaml(): (v: Blocks.View<string, Field, string>) {
    Blocks.View(LeadingSpaces, (l: string) => TrimSpace(l) == "", HasKey, IsHeader, SetYamlValue, KeyValueLine)
  }

  // ---------- the shape of a key line ----------

  ghost predicate Spaces(s: string) {
    forall i :: 0 <= i < |s| ==> IsSpace(s[i])
  }

  lemma {:induction false} TrimLeftSplit(s: string) returns (k: nat)
    ensures k <= |s| && Spaces(s[..k]) && TrimLeft(s) == s[k..]
  {
    if s != [] && IsSpace(s[0]) {
      k := TrimLeftSplit(s[1..]);
      k := k + 1;
      assert s[..k] == [s[0]] + s[1..][..k - 1];
    } else {
      k := 0;
    }
  }

  lemma {:induction false} TrimLeftOf(ws: string, t: string)
    requires Spaces(ws) && (t == [] || !IsSpace(t[0]))
    ensures TrimLeft(ws + t) == t
  {
    if ws == [] {
      assert ws + t == t;
    } else {
      assert (ws + t)[1..] == ws[1..] + t;
      TrimLeftOf(ws[1..], t);
    }
  }

  lemma {:induction false} TrimRightKeeps(p: string, r: string)
    requires p != [] && !IsSpace(p[|p| - 1])
    ensures p <= TrimRight(p + r)
    decreases |r|
  {
    if r == [] {
      assert p + r == p;
    } else if IsSpace(r[|r| - 1]) {
      assert (p + r)[..|p + r| - 1] == p + r[..|r| - 1];
      TrimRightKeeps(p, r[..|r| - 1]);
    }
  }

  /** The head of a key line: white space, the key and its colon. */
  ghost predicate KeyHead(p: string, f: Field) {
    && |p| > |KeyText(f)| && Spaces(p[..|p| - |KeyText(f)| - 1])
    && p[|p| - |KeyText(f)| - 1..] == KeyText(f) + [':']
  }

  lemma {:induction false} HeadOfKeyLine(line: string, f: Field) returns (p: string, r: string)
    requires HasKey(line, f)
    ensures line == p + r && KeyHead(p, f)
  {
    var k := TrimLeftSplit(line);
    var key := KeyText(f) + [':'];
    assert TrimRight(line[k..]) <= line[k..];
    assert key <= line[k..];
    p, r := line[..k + |key|], line[k + |key|..];
    assert p[..k] == line[..k];
    assert p[k..] == key;
  }

  lemma {:induction false} KeyLineOfHead(p: string, r: string, f: Field)
    requires KeyHead(p, f)
    ensures HasKey(p + r, f)
  {
    var n := |p| - |KeyText(f)| - 1;
    var ws, key := p[..n], KeyText(f) + [':'];
    assert p + r == ws + (key + r);
    assert (key + r)[0] == KeyText(f)[0];
    TrimLeftOf(ws, key + r);
    assert key[|key| - 1] == ':';
    TrimRightKeeps(key, r);
  }

  lemma {:induction false} ColonOfHead(p: string, r: string, f: Field)
    requires KeyHead(p, f)
    ensures Colon(p + r) == |p| - 1
  {
    var s, n := p + r, |p| - |KeyText(f)| - 1;
    forall j | 0 <= j < |p| - 1
      ensures s[j] != ':'
    {
      if j < n {
        assert s[j] == p[..n][j];
      } else {
        assert s[j] == p[n..][j - n] == KeyText(f)[j - n];
      }
    }
    assert s[|p| - 1] == p[n..][|KeyText(f)|];
    Blocks.FirstIs(s, (c: char) => c == ':', |p| - 1);
  }

  lemma {:induction false} LeadingOfHead(p: string, r: string, i: nat)
    requires i < |p| && p[i] != ' '
    ensures LeadingSpaces(p + r) == LeadingSpaces(p)
  {
    if p[0] == ' ' {
      assert (p + r)[1..] == p[1..] + r;
      LeadingOfHead(p[1..], r, i - 1);
    }
  }

  /**
   Writing a value replaces the whole rest of the line, a trailing comment included; the
   line is left alone only when nothing but the value stands there.
   */
  lemma {:induction false} RestOfLineReplaced(p: string, r: string, f: Field, x: string)
    requires KeyHead(p, f)
    ensures SetYamlValue(p + r, x) == p + ([' '] + x)
    ensures SetYamlValue(p + r, x) == p + r <==> r == [' '] + x
  {
    ColonOfHead(p, r, f);
    assert (p + r)[..|p|] == p && (p + r)[|p|..] == r;
    assert p + [' '] + x == p + ([' '] + x);
    assert (p + ([' '] + x))[|p|..] == [' '] + x;
  }

  // ---------- the laws ----------

  lemma {:induction false} KeysDiffer(line: string, f: Field, g: Field)
    requires HasKey(line, f) && HasKey(line, g)
    ensures f == g
  {
    var t := TrimSpace(line);
    assert t[0] == (KeyText(f) + [':'])[0] == (KeyText(g) + [':'])[0];
    assert t[1] == (KeyText(f) + [':'])[1] == (KeyText(g) + [':'])[1];
  }

  lemma {:induction false} NotAHeader(line: string, f: Field, id: string)
    requires HasKey(line, f)
    ensures !IsHeader(line, id) && TrimSpace(line) != ""
  {
    var t := TrimSpace(line);
    assert t[0] == (KeyText(f) + [':'])[0];
    assert (ID + id)[0] == '-';
  }

  lemma {:induction false} KeyLineHolds(p: string, f: Field, x: string)
    requires KeyHead(p, f)
    ensures Blocks.Holds(Yaml(), p + ([' '] + x), f, x)
  {
    var l := p + ([' '] + x);
    KeyLineOfHead(p, [' '] + x, f);
    ColonOfHead(p, [' '] + x, f);
    assert l[..|p|] == p;
    assert p + [' '] + x == l;
    forall g | HasKey(l, g)
      ensures g == f
    {
      KeysDiffer(l, f, g);
    }
    forall id
      ensures !IsHeader(l, id)
    {
      NotAHeader(l, f, id);
    }
    NotAHeader(l, f, "");
  }

  lemma {:induction false} SetHolds(line: string, f: Field, x: string)
    requires HasKey(line, f)
    ensures Blocks.Holds(Yaml(), SetYamlValue(line, x), f, x)
    ensures LeadingSpaces(SetYamlValue(line, x)) == LeadingSpaces(line)
  {
    var p, r := HeadOfKeyLine(line, f);
    ColonOfHead(p, r, f);
    assert line[..|p|] == p;
    assert p + [' '] + x == p + ([' '] + x);
    KeyLineHolds(p, f, x);
    assert p[|p| - 1] == p[|p| - |KeyText(f)| - 1..][|KeyText(f)|] == ':';
    LeadingOfHead(p, r, |p| - 1);
    LeadingOfHead(p, [' '] + x, |p| - 1);
  }

  lemma {:induction false} LeadingBlanks(n: nat, t: string)
    requires t != [] && t[0] != ' '
    ensures LeadingSpaces(Blanks(n) + t) == n
  {
    if n == 0 {
      assert Blanks(0) + t == t;
    } else {
      assert (Blanks(n) + t)[1..] == Blanks(n - 1) + t;
      LeadingBlanks(n - 1, t);
    }
  }

  lemma {:induction false} MadeHead(n: nat, f: Field)
    ensures KeyHead(Blanks(n + 2) + KeyText(f) + [':'], f)
  {
    var p := Blanks(n + 2) + KeyText(f) + [':'];
    assert p[..n + 2] == Blanks(n + 2);
    assert p[n + 2..] == KeyText(f) + [':'];
  }

  lemma {:induction false} Regroup<T>(a: seq<T>, b: seq<T>, c: seq<T>, d: seq<T>, e: seq<T>)
    ensures a + b + c + d + e == a + (b + (c + d + e))
  {
  }

  lemma {:induction false} MadeIndent(n: nat, f: Field, x: string)
    ensures LeadingSpaces(KeyValueLine(n, f, x)) == n + 2
  {
    var key, r := KeyText(f), [':'] + [' '] + x;
    assert !IsSpace(key[0]) && (key + r)[0] == key[0];
    LeadingBlanks(n + 2, key + r);
    Regroup(Blanks(n + 2), key, [':'], [' '], x);
  }

  lemma {:induction false} MadeHolds(n: nat, f: Field, x: string)
    ensures Blocks.Holds(Yaml(), KeyValueLine(n, f, x), f, x)
  {
    var p := Blanks(n + 2) + KeyText(f) + [':'];
    MadeHead(n, f);
    KeyLineHolds(p, f, x);
    assert p + [' '] + x == p + ([' '] + x);
  }

  lemma {:induction false} Kinds(line: string)
    ensures Blocks.KindLaw(Yaml(), line)
  {
    forall f, g | HasKey(line, f) && HasKey(line, g)
      ensures f == g
    {
      KeysDiffer(line, f, g);
    }
    forall f, id | HasKey(line, f)
      ensures !IsHeader(line, id)
    {
      NotAHeader(line, f, id);
    }
    forall f | HasKey(line, f)
      ensures TrimSpace(line) != ""
    {
      NotAHeader(line, f, "");
    }
    forall a, b | IsHeader(line, a) && IsHeader(line, b)
      ensures a == b
    {
      assert (ID + a)[|ID|..] == a && (ID + b)[|ID|..] == b;
    }
  }

  /** Texts obey the laws of the block editor. */
  lemma {:induction false} YamlLawful()
    ensures Blocks.Lawful(Yaml())
  {
    var v := Yaml();
    forall l, k, x
      ensures Blocks.SetLaw(v, l, k, x)
    {
      if HasKey(l, k) {
        SetHolds(l, k, x);
      }
    }
    forall n, k, x
      ensures Blocks.FreshLaw(v, n, k, x)
    {
      MadeHolds(n, k, x);
      MadeIndent(n, k, x);
    }
    forall l
      ensures Blocks.KindLaw(v, l)
    {
      Kinds(l);
    }
  }

  // ---------- texts and lines ----------

  /** strings.Split and strings.Join on the newline. */
  function Split(s: string): (r: seq<string>)
    ensures r != []
    decreases |s|
  {
    var i := Blocks.First(s, (c: char) => c == '\n');
    if i == |s| then [s] else [s[..i]] + Split(s[i + 1..])
  }

  function Join(lines: seq<string>): (s: string)
    requires lines != []
  {
    if |lines| == 1 then lines[0] else lines[0] + (['\n'] + Join(lines[1..]))
  }

  predicate OneLine(s: string) {
    '\n' !in s
  }

  lemma {:induction false} JoinSplit(s: string)
    ensures Join(Split(s)) == s
    ensures forall l :: l in Split(s) ==> OneLine(l)
    decreases |s|
  {
    var i := Blocks.First(s, (c: char) => c == '\n');
    if i < |s| {
      JoinSplit(s[i + 1..]);
      assert s == s[..i] + (['\n'] + s[i + 1..]);
      assert Split(s)[1..] == Split(s[i + 1..]);
    }
  }

  lemma {:induction false} NewlineAt(a: string, b: string)
    requires OneLine(a)
    ensures Split(a) == [a]
    ensures Split(a + (['\n'] + b)) == [a] + Split(b)
  {
    var s := a + (['\n'] + b);
    Blocks.FirstIs(a, (c: char) => c == '\n', |a|);
    Blocks.FirstIs(s, (c: char) => c == '\n', |a|);
    assert s[..|a|] == a && s[|a| + 1..] == b;
  }

  lemma {:induction false} SplitJoin(lines: seq<string>)
    requires lines != [] && forall l :: l in lines ==> OneLine(l)
    ensures Split(Join(lines)) == lines
    decreases |lines|
  {
    assert lines[0] in lines;
    if |lines| == 1 {
      NewlineAt(lines[0], "");
    } else {
      SplitJoin(lines[1..]);
      NewlineAt(lines[0], Join(lines[1..]));
    }
  }

  // ---------- the agents ----------

  datatype Agent = Agent(id: string, model: string, runner: string, maxWorkers: int)

  type Change = Blocks.Update<string, Field>

  /** The fields of an agent that have a value, in the order they are written. */
  function FieldsOf(a: Agent): (r: seq<Change>) {
    (if a.model != "" then [Blocks.Update(a.id, Model, a.model)] else [])
    + (if a.runner != "" then [Blocks.Update(a.id, Runner, a.runner)] else [])
    + (if a.maxWorkers > 0 then [Blocks.Update(a.id, MaxWorkers, Decimal(a.maxWorkers))] else [])
  }

  function ChangesOf(agents: seq<Agent>): (r: seq<Change>) {
    if agents == [] then [] else ChangesOf(agents[..|agents| - 1]) + FieldsOf(agents[|agents| - 1])
  }

  /** The lines of the file after the edit. */
  function MergedLines(raw: string, agents: seq<Agent>): (r: seq<string>) {
    Blocks.MergeAll(Yaml(), ChangesOf(agents), Split(raw))
  }

  lemma {:induction false} WritesOneLine(x: string)
    requires OneLine(x)
    ensures Blocks.Keeps(Yaml(), OneLine, x)
  {
    forall l | OneLine(l)
      ensures OneLine(SetYamlValue(l, x))
    {
    }
    forall n, f
      ensures OneLine(KeyValueLine(n, f, x))
    {
      assert OneLine(KeyText(f));
    }
  }

  /** The edited lines are the lines of the edited file. */
  lemma {:induction false} MergedIsText(raw: string, agents: seq<Agent>)
    requires forall u :: u in ChangesOf(agents) ==> OneLine(u.value)
    ensures MergedLines(raw, agents) != [] && Split(Join(MergedLines(raw, agents))) == MergedLines(raw, agents)
  {
    var us := ChangesOf(agents);
    JoinSplit(raw);
    forall i | 0 <= i < |us|
      ensures Blocks.Keeps(Yaml(), OneLine, us[i].value)
    {
      assert us[i] in us;
      WritesOneLine(us[i].value);
    }
    Blocks.MergeKeepsAll(Yaml(), OneLine, us, Split(raw));
    SplitJoin(MergedLines(raw, agents));
  }

  /** mergeRawChanges on a file that was loaded from text. */
  function Merged(raw: string, agents: seq<Agent>): (r: string)
    requires MergedLines(raw, agents) != []
  {
    Join(MergedLines(raw, agents))
  }

  /** Agents with names of their own, in blocks of their own, with one-line values. */
  ghost predicate Editable(raw: string, agents: seq<Agent>) {
    && (forall i, j :: 0 <= i < j < |agents| ==> agents[i].id != agents[j].id)
    && (forall i, j :: 0 <= i < j < |agents| ==> Blocks.Disjoint(Yaml(), agents[i].id, agents[j].id, Split(raw)))
    && (forall u :: u in ChangesOf(agents) ==> OneLine(u.value))
  }

  lemma {:induction false} ChangesComeFrom(agents: seq<Agent>, k: nat) returns (i: nat)
    requires k < |ChangesOf(agents)|
    ensures i < |agents| && ChangesOf(agents)[k].agent == agents[i].id && ChangesOf(agents)[k] in FieldsOf(agents[i])
  {
    var before := ChangesOf(agents[..|agents| - 1]);
    if k < |before| {
      i := ChangesComeFrom(agents[..|agents| - 1], k);
    } else {
      i := |agents| - 1;
      assert ChangesOf(agents)[k] == FieldsOf(agents[i])[k - |before|];
    }
  }

  lemma {:induction false} ChangesDistinct(agents: seq<Agent>)
    requires forall i, j :: 0 <= i < j < |agents| ==> agents[i].id != agents[j].id
    ensures Blocks.Distinct(ChangesOf(agents))
  {
    if agents != [] {
      var init, last := agents[..|agents| - 1], agents[|agents| - 1];
      ChangesDistinct(init);
      var before, own := ChangesOf(init), FieldsOf(last);
      var all := before + own;
      forall p, q | 0 <= p < q < |all|
        ensures all[p].agent != all[q].agent || all[p].key != all[q].key
      {
        if q < |before| {
          assert all[p] == before[p] && all[q] == before[q];
        } else if p < |before| {
          var i := ChangesComeFrom(init, p);
          assert all[p] == before[p] && all[q] == own[q - |before|];
        } else {
          assert all[p] == own[p - |before|] && all[q] == own[q - |before|];
        }
      }
    }
  }

  lemma {:induction false} DisjointBothWays(a: string, b: string, lines: seq<string>)
    requires Blocks.Disjoint(Yaml(), a, b, lines)
    ensures Blocks.Disjoint(Yaml(), b, a, lines)
  {
  }

  lemma {:induction false} ChangesApart(raw: string, agents: seq<Agent>)
    requires Editable(raw, agents)
    ensures Blocks.Apart(Yaml(), ChangesOf(agents), Split(raw))
  {
    var us := ChangesOf(agents);
    forall p, q | 0 <= p < |us| && 0 <= q < |us| && us[p].agent != us[q].agent
      ensures Blocks.Disjoint(Yaml(), us[p].agent, us[q].agent, Split(raw))
    {
      var i := ChangesComeFrom(agents, p);
      var j := ChangesComeFrom(agents, q);
      if j < i {
        DisjointBothWays(agents[j].id, agents[i].id, Split(raw));
      }
    }
  }

  /** The value a lookup of the field reads in the agent's block. */
  function Lookup(lines: seq<string>, id: string, f: Field): (r: Option<string>) {
    var l := Blocks.KeyLine(Yaml(), id, f, lines);
    if l.None? then None else Some(ValueOf(l.value))
  }

  function ValueOf(line: string): (r: string) {
    if Colon(line) + 2 <= |line| then line[Colon(line) + 2..] else ""
  }

  lemma {:induction false} HeldValue(line: string, f: Field, x: string)
    requires Blocks.Holds(Yaml(), line, f, x)
    ensures ValueOf(line) == x
  {
    var p, r := HeadOfKeyLine(line, f);
    ColonOfHead(p, r, f);
    assert SetYamlValue(line, x) == line;
  }

  /** After saving, looking up an edited field of an agent in the file finds the value in memory. */
  lemma {:induction false} MergeReadsBack(raw: string, agents: seq<Agent>, u: Change)
    requires Editable(raw, agents) && u in ChangesOf(agents)
    ensures MergedLines(raw, agents) != []
    ensures var lines := Split(Merged(raw, agents));
            Blocks.Exists(Yaml(), u.agent, Split(raw)) ==> Lookup(lines, u.agent, u.key) == Some(u.value)
  {
    var us := ChangesOf(agents);
    var k :| 0 <= k < |us| && us[k] == u;
    MergedIsText(raw, agents);
    ChangesDistinct(agents);
    ChangesApart(raw, agents);
    YamlLawful();
    Blocks.MergeReadsBack(Yaml(), us, Split(raw), k);
    Blocks.MergeKeepsHeaders(Yaml(), us, Split(raw), u.agent);
    var lines := MergedLines(raw, agents);
    if Blocks.Exists(Yaml(), u.agent, lines) {
      HeldValue(Blocks.KeyLine(Yaml(), u.agent, u.key, lines).value, u.key, u.value);
    }
  }

  // ---------- field by field ----------

  /** The line is white space, the key, a colon, a blank and the value. */
  ghost predicate LineSays(line: string, key: string, x: string) {
    exists p :: Spaces(p) && line == p + (key + ": " + x)
  }

  /** The key stands in the agent's block, with the value. */
  ghost predicate BlockSays(lines: seq<string>, id: string, f: Field, key: string, x: string) {
    var l := Blocks.KeyLine(Yaml(), id, f, lines);
    l.Some? && LineSays(l.value, key, x)
  }

  /** The key of a field, as it stands in the file. */
  function KeyName(f: Field): (key: string) {
    match f
    case Model => "model"
    case Runner => "runner"
    case MaxWorkers => "max_workers"
  }

  lemma {:induction false} HeadSays(p: string, q: string, key: string, x: string)
    requires Spaces(q) && p == q + (key + [':'])
    ensures LineSays(p + ([' '] + x), key, x)
  {
    var tail := ": " + x;
    assert tail == [':'] + ([' '] + x);
    assert p + ([' '] + x) == q + (key + tail);
    assert key + ": " + x == key + tail;
  }

  lemma {:induction false} OnlyValueSays(line: string, f: Field, x: string)
    requires OnlyValue(line, f, x)
    ensures LineSays(line, KeyName(f), x)
  {
    var p :| KeyHead(p, f) && line == p + ([' '] + x);
    var n := |p| - |KeyText(f)| - 1;
    assert p == p[..n] + p[n..];
    assert KeyText(f) == KeyName(f);
    HeadSays(p, p[..n], KeyName(f), x);
  }

  lemma {:induction false} ChangeOfAgent(agents: seq<Agent>, a: Agent, u: Change)
    requires a in agents && u in FieldsOf(a)
    ensures u in ChangesOf(agents)
  {
    var init := agents[..|agents| - 1];
    assert agents == init + [agents[|agents| - 1]];
    if a in init {
      ChangeOfAgent(init, a, u);
    }
  }

  /** Every change of the agent's id comes from the agent. */
  lemma {:induction false} ChangeFromAgent(agents: seq<Agent>, a: Agent, u: Change)
    requires forall i, j :: 0 <= i < j < |agents| ==> agents[i].id != agents[j].id
    requires a in agents && u in ChangesOf(agents) && u.agent == a.id
    ensures u in FieldsOf(a)
  {
    var k :| 0 <= k < |ChangesOf(agents)| && ChangesOf(agents)[k] == u;
    var i := ChangesComeFrom(agents, k);
    var j :| 0 <= j < |agents| && agents[j] == a;
  }

  lemma {:induction false} FieldSaved(raw: string, agents: seq<Agent>, u: Change)
    requires Editable(raw, agents) && u in ChangesOf(agents) && Blocks.Exists(Yaml(), u.agent, Split(raw))
    ensures MergedLines(raw, agents) != []
    ensures var lines := Split(Merged(raw, agents));
            && Lookup(lines, u.agent, u.key) == Some(u.value)
            && BlockSays(lines, u.agent, u.key, KeyName(u.key), u.value)
  {
    var us := ChangesOf(agents);
    var k :| 0 <= k < |us| && us[k] == u;
    MergeReadsBack(raw, agents, u);
    MergedIsText(raw, agents);
    ChangesDistinct(agents);
    ChangesApart(raw, agents);
    YamlLawful();
    Blocks.MergeReadsBack(Yaml(), us, Split(raw), k);
    Blocks.MergeKeepsHeaders(Yaml(), us, Split(raw), u.agent);
    var line := Blocks.KeyLine(Yaml(), u.agent, u.key, MergedLines(raw, agents)).value;
    WrittenAlready(line, u.key, u.value);
    OnlyValueSays(line, u.key, u.value);
  }

  lemma {:induction false} AgentClear(raw: string, agents: seq<Agent>, a: Agent)
    requires Editable(raw, agents) && a in agents
    ensures Blocks.Clear(Yaml(), ChangesOf(agents), a.id, Split(raw))
  {
    var us := ChangesOf(agents);
    var j :| 0 <= j < |agents| && agents[j] == a;
    forall p | 0 <= p < |us| && us[p].agent != a.id
      ensures Blocks.Disjoint(Yaml(), us[p].agent, a.id, Split(raw))
    {
      var i := ChangesComeFrom(agents, p);
      if j < i {
        DisjointBothWays(agents[j].id, agents[i].id, Split(raw));
      }
    }
  }

  lemma {:induction false} FieldKept(raw: string, agents: seq<Agent>, a: Agent, f: Field)
    requires Editable(raw, agents) && a in agents && forall u :: u in FieldsOf(a) ==> u.key != f
    ensures MergedLines(raw, agents) != []
    ensures Lookup(Split(Merged(raw, agents)), a.id, f) == Lookup(Split(raw), a.id, f)
  {
    var us := ChangesOf(agents);
    MergedIsText(raw, agents);
    ChangesDistinct(agents);
    ChangesApart(raw, agents);
    AgentClear(raw, agents, a);
    YamlLawful();
    forall i | 0 <= i < |us|
      ensures us[i].agent != a.id || us[i].key != f
    {
      if us[i].agent == a.id {
        ChangeFromAgent(agents, a, us[i]);
      }
    }
    Blocks.MergeKeepsKey(Yaml(), us, Split(raw), |us|, a.id, f);
    assert us[..|us|] == us;
  }

  /** After saving the file holds x under the key; without a value in memory, it holds what it held. */
  ghost predicate Saved(raw: string, agents: seq<Agent>, id: string, f: Field, key: string, x: Option<string>)
    requires MergedLines(raw, agents) != []
  {
    var lines := Split(Merged(raw, agents));
    if x.Some? && Blocks.Exists(Yaml(), id, Split(raw)) then Lookup(lines, id, f) == x && BlockSays(lines, id, f, key, x.value)
    else Lookup(lines, id, f) == Lookup(Split(raw), id, f)
  }

  ghost predicate Writes(a: Agent, f: Field, x: Option<string>) {
    if x.Some? then Blocks.Update(a.id, f, x.value) in FieldsOf(a) else forall u :: u in FieldsOf(a) ==> u.key != f
  }

  lemma {:induction false} SavedFrom(raw: string, agents: seq<Agent>, a: Agent, f: Field, key: string, x: Option<string>)
    requires Editable(raw, agents) && a in agents
    requires key == KeyName(f)
    requires Writes(a, f, x)
    ensures MergedLines(raw, agents) != [] && Saved(raw, agents, a.id, f, key, x)
  {
    MergedIsText(raw, agents);
    if x.None? {
      FieldKept(raw, agents, a, f);
    } else if Blocks.Exists(Yaml(), a.id, Split(raw)) {
      ChangeOfAgent(agents, a, Blocks.Update(a.id, f, x.value));
      FieldSaved(raw, agents, Blocks.Update(a.id, f, x.value));
    } else {
      YamlLawful();
      Blocks.MergeKeepsHeaders(Yaml(), ChangesOf(agents), Split(raw), a.id);
    }
  }

  function Given(x: string): (r: Option<string>) {
    if x != "" then Some(x) else None
  }

  function GivenLimit(n: int): (r: Option<string>) {
    if n > 0 then Some(Decimal(n)) else None
  }

  /** The fields that are written, and those that are not. */
  lemma {:induction false} FieldsAre(a: Agent)
    ensures Writes(a, Model, Given(a.model)) && Writes(a, Runner, Given(a.runner)) && Writes(a, MaxWorkers, GivenLimit(a.maxWorkers))
  {
  }

  /**
   After saving, each agent's block in the file has the agent's model after "model:", its runner
   after "runner:" and its worker limit after "max_workers:". A field without a value in
   memory, and every field of an agent that is not in the file, reads as before.
   */
  lemma {:induction false} AgentSaved(raw: string, agents: seq<Agent>, a: Agent)
    requires Editable(raw, agents) && a in agents
    ensures MergedLines(raw, agents) != []
    ensures Saved(raw, agents, a.id, Model, "model", Given(a.model))
    ensures Saved(raw, agents, a.id, Runner, "runner", Given(a.runner))
    ensures Saved(raw, agents, a.id, MaxWorkers, "max_workers", GivenLimit(a.maxWorkers))
  {
    FieldsAre(a);
    SavedFrom(raw, agents, a, Model, "model", Given(a.model));
    SavedFrom(raw, agents, a, Runner, "runner", Given(a.runner));
    SavedFrom(raw, agents, a, MaxWorkers, "max_workers", GivenLimit(a.maxWorkers));
  }

  /** Saving again changes nothing. */
  lemma {:induction false} MergeTwice(raw: string, agents: seq<Agent>)
    requires Editable(raw, agents)
    ensures MergedLines(raw, agents) != []
    ensures MergedLines(Merged(raw, agents), agents) == MergedLines(raw, agents)
  {
    MergedIsText(raw, agents);
    ChangesDistinct(agents);
    ChangesApart(raw, agents);
    YamlLawful();
    Blocks.MergeTwice(Yaml(), ChangesOf(agents), Split(raw));
  }

  /** Every line without one of the fields is still there, unchanged and in order. */
  lemma {:induction false} MergeKeepsTheRest(raw: string, agents: seq<Agent>)
    requires forall u :: u in ChangesOf(agents) ==> OneLine(u.value)
    ensures MergedLines(raw, agents) != []
    ensures Blocks.Skeleton(Yaml(), Split(Merged(raw, agents))) == Blocks.Skeleton(Yaml(), Split(raw))
  {
    MergedIsText(raw, agents);
    YamlLawful();
    Blocks.MergeKeepsSkeleton(Yaml(), ChangesOf(agents), Split(raw));
  }

  /**
   Every line of the file is still there, in order: as it was, or with the new value if it is
   the first line of an edited field in its agent's block; and every new line is an edited
   field that its agent's block did not have.
   */
  lemma {:induction false} MergeKeepsEveryLine(raw: string, agents: seq<Agent>) returns (m: seq<nat>)
    requires Editable(raw, agents)
    ensures MergedLines(raw, agents) != []
    ensures var was, us := Split(raw), ChangesOf(agents);
            Frame.Framed(Frame.SpecOf(Yaml(), was), us, |us|, was, Split(Merged(raw, agents)), m)
  {
    MergedIsText(raw, agents);
    ChangesDistinct(agents);
    ChangesApart(raw, agents);
    YamlLawful();
    m := Frame.MergeKeepsLines(Yaml(), ChangesOf(agents), Split(raw));
  }

  /** The field is on its line as a save writes it: nothing follows the colon but a blank and the value. */
  ghost predicate SavedAs(u: Change, lines: seq<string>) {
    Blocks.Exists(Yaml(), u.agent, lines) ==>
      var l := Blocks.KeyLine(Yaml(), u.agent, u.key, lines);
      l.Some? && OnlyValue(l.value, u.key, u.value)
  }

  /** White space, the key, its colon, a blank and the value. */
  ghost predicate OnlyValue(line: string, f: Field, x: string) {
    exists p :: KeyHead(p, f) && line == p + ([' '] + x)
  }

  lemma {:induction false} WrittenAlready(line: string, f: Field, x: string)
    requires HasKey(line, f)
    ensures SetYamlValue(line, x) == line <==> OnlyValue(line, f, x)
  {
    var p, r := HeadOfKeyLine(line, f);
    RestOfLineReplaced(p, r, f, x);
    if OnlyValue(line, f, x) {
      var q :| KeyHead(q, f) && line == q + ([' '] + x);
      RestOfLineReplaced(q, [' '] + x, f, x);
    }
  }

  lemma {:induction false} SavedIsAsIs(u: Change, lines: seq<string>)
    ensures SavedAs(u, lines) <==> Blocks.AsIs(Yaml(), u, lines)
  {
    var l := Blocks.KeyLine(Yaml(), u.agent, u.key, lines);
    if l.Some? {
      WrittenAlready(l.value, u.key, u.value);
    }
  }

  /** Saving leaves the file alone exactly when every field is on its line so; a trailing comment is lost. */
  lemma {:induction false} SavingChangesNothing(raw: string, agents: seq<Agent>)
    requires Editable(raw, agents)
    ensures MergedLines(raw, agents) != []
    ensures Merged(raw, agents) == raw <==> forall u :: u in ChangesOf(agents) ==> SavedAs(u, Split(raw))
  {
    var us := ChangesOf(agents);
    MergedIsText(raw, agents);
    JoinSplit(raw);
    ChangesDistinct(agents);
    ChangesApart(raw, agents);
    YamlLawful();
    Blocks.MergeSameExactly(Yaml(), us, Split(raw));
    assert Merged(raw, agents) == raw <==> MergedLines(raw, agents) == Split(raw);
    forall i | 0 <= i < |us|
      ensures us[i] in us && (SavedAs(us[i], Split(raw)) <==> Blocks.AsIs(Yaml(), us[i], Split(raw)))
    {
      SavedIsAsIs(us[i], Split(raw));
    }
  }

  // ---------- the whole edit ----------

  method MergeFields(lines: seq<string>, a: Agent) returns (r: seq<string>, changed: bool)
    ensures r == Blocks.MergeAll(Yaml(), FieldsOf(a), lines) && |r| >= |lines|
    ensures !changed ==> r == lines
  {
    YamlLawful();
    MergeGrows(FieldsOf(a), lines);
    r, changed := Blocks.MergeAgent(Yaml(), lines, a.id, FieldsOf(a));
  }

  method MergeRawChanges(raw: string, agents: seq<Agent>) returns (r: string)
    requires raw != ""
    ensures MergedLines(raw, agents) != [] && r == Merged(raw, agents)
  {
    var lines := Split(raw);
    var changed := false;
    JoinSplit(raw);
    var i := 0;
    while i < |agents|
      invariant 0 <= i <= |agents|
      invariant lines == Blocks.MergeAll(Yaml(), ChangesOf(agents[..i]), Split(raw)) && lines != []
      invariant !changed ==> lines == Split(raw)
    {
      Blocks.MergeJoin(Yaml(), ChangesOf(agents[..i]), FieldsOf(agents[i]), Split(raw));
      assert agents[..i + 1][..i] == agents[..i];
      var c;
      lines, c := MergeFields(lines, agents[i]);
      changed := changed || c;
      i := i + 1;
    }
    assert agents[..|agents|] == agents;
    if !changed {
      return raw;
    }
    return Join(lines);
  }

  lemma {:induction false} MergeGrows(us: seq<Change>, lines: seq<string>)
    ensures |Blocks.MergeAll(Yaml(), us, lines)| >= |lines|
  {
    Blocks.MergeKeepsAll(Yaml(), (l: string) => true, us, lines);
  }
}
