/**
 Answering an approval: the dashboard form and the command line collect typed values, and
 the daemon checks them. Whatever a client accepts, the daemon accepts.
 */
module Approvals {
  import opened Wrappers
  import opened Text

  datatype Type = Boolean | Number | Choice | Text

  /** A declared field; its options are strings. */
  datatype Field<N> = Field(name: N, kind: Type, required: bool, options: seq<string>)

  /** A value of the response, as it arrives through JSON. */
  datatype Value<R> = Flag(b: bool) | Num(n: R) | Str(s: string) | Null

  type Values<!N, R> = map<N, Value<R>>

  ghost predicate DistinctNames<N(!new)>(fields: seq<Field<N>>) {
    forall i, j :: 0 <= i < j < |fields| ==> fields[i].name != fields[j].name
  }

  // ---------- the daemon ----------

  predicate Typed<N, R>(f: Field<N>, v: Value<R>) {
    match f.kind
    case Boolean => v.Flag?
    case Number => v.Num?
    case Choice => v.Str? && v.s in f.options
    case Text => true
  }

  predicate IsBlank<R>(v: Value<R>) {
    v.Null? || (v.Str? && v.s == "")
  }

  /** The checks of validateApprovalResponse on one field. */
  predicate FieldOk<N(==), R>(f: Field<N>, values: Values<N, R>, rejecting: bool) {
    && (f.required && !rejecting ==> f.name in values && !IsBlank(values[f.name]))
    && (f.name in values ==> Typed(f, values[f.name]))
  }

  ghost predicate Accepts<N(!new), R>(fields: seq<Field<N>>, values: Values<N, R>, rejecting: bool) {
    forall i :: 0 <= i < |fields| ==> FieldOk(fields[i], values, rejecting)
  }

  datatype FieldError<N> = Missing(name: N) | Mistyped(name: N)

  /** A required field has no value; a rejection needs none. */
  predicate Lacks<N(==), R>(f: Field<N>, values: Values<N, R>, rejecting: bool) {
    && f.required && !rejecting
    && (f.name !in values || values[f.name].Null? || (values[f.name].Str? && values[f.name].s == ""))
  }

  /** The value of a field is not of its kind; any value is a text. */
  ghost predicate Mismatches<N(!new), R>(f: Field<N>, values: Values<N, R>) {
    && f.name in values
    && var v := values[f.name];
    || (f.kind == Boolean && !v.Flag?)
    || (f.kind == Number && !v.Num?)
    || (f.kind == Choice && forall k :: 0 <= k < |f.options| ==> !(v.Str? && v.s == f.options[k]))
  }

  /** The error names the first field that is missing or mistyped; without one there is none. */
  ghost predicate FirstError<N(!new), R>(fields: seq<Field<N>>, values: Values<N, R>, rejecting: bool, err: Option<FieldError<N>>) {
    match err
    case None => forall i :: 0 <= i < |fields| ==> !Lacks(fields[i], values, rejecting) && !Mismatches(fields[i], values)
    case Some(e) => exists i :: FailsAt(fields, values, rejecting, i, e)
  }

  ghost predicate FailsAt<N(!new), R>(fields: seq<Field<N>>, values: Values<N, R>, rejecting: bool, i: int, e: FieldError<N>) {
    && 0 <= i < |fields|
    && (if Lacks(fields[i], values, rejecting) then e == Missing(fields[i].name)
        else Mismatches(fields[i], values) && e == Mistyped(fields[i].name))
    && forall j :: 0 <= j < i ==> !Lacks(fields[j], values, rejecting) && !Mismatches(fields[j], values)
  }

  lemma {:induction false} FieldOkMeans<N(!new), R>(f: Field<N>, values: Values<N, R>, rejecting: bool)
    ensures FieldOk(f, values, rejecting) <==> !Lacks(f, values, rejecting) && !Mismatches(f, values)
    ensures f.name in values ==> (Typed(f, values[f.name]) <==> !Mismatches(f, values))
  {
    if f.name in values && f.kind == Choice && values[f.name].Str? && values[f.name].s in f.options {
      var k :| 0 <= k < |f.options| && f.options[k] == values[f.name].s;
    }
  }

  lemma {:induction false} FailsHere<N(!new), R>(fields: seq<Field<N>>, values: Values<N, R>, rejecting: bool, i: nat, e: FieldError<N>)
    requires i < |fields| && forall j :: 0 <= j < i ==> FieldOk(fields[j], values, rejecting)
    requires if Lacks(fields[i], values, rejecting) then e == Missing(fields[i].name)
             else fields[i].name in values && !Typed(fields[i], values[fields[i].name]) && e == Mistyped(fields[i].name)
    ensures FailsAt(fields, values, rejecting, i, e)
  {
    FieldOkMeans(fields[i], values, rejecting);
    forall j | 0 <= j < i
      ensures !Lacks(fields[j], values, rejecting) && !Mismatches(fields[j], values)
    {
      FieldOkMeans(fields[j], values, rejecting);
    }
  }

  lemma {:induction false} NoneFails<N(!new), R>(fields: seq<Field<N>>, values: Values<N, R>, rejecting: bool)
    requires Accepts(fields, values, rejecting)
    ensures FirstError(fields, values, rejecting, None)
  {
    forall i | 0 <= i < |fields|
      ensures !Lacks(fields[i], values, rejecting) && !Mismatches(fields[i], values)
    {
      FieldOkMeans(fields[i], values, rejecting);
    }
  }

  /** The inner loop: is the value one of the options? */
  method IsOption<R>(options: seq<string>, v: Value<R>) returns (allowed: bool)
    ensures allowed <==> v.Str? && v.s in options
  {
    allowed := false;
    var k := 0;
    while k < |options|
      invariant 0 <= k <= |options|
      invariant allowed <==> v.Str? && v.s in options[..k]
    {
      assert options[..k + 1] == options[..k] + [options[k]];
      if v.Str? && options[k] == v.s {
        allowed := true;
      }
      k := k + 1;
    }
    assert options[..|options|] == options;
  }

  /** The loop over the fields: the first one that fails is reported. */
  method CheckFields<N(==,!new), R>(fields: seq<Field<N>>, values: Values<N, R>, rejecting: bool)
    returns (err: Option<FieldError<N>>)
    ensures err.None? <==> Accepts(fields, values, rejecting)
    ensures FirstError(fields, values, rejecting, err)
  {
    var i := 0;
    while i < |fields|
      invariant 0 <= i <= |fields|
      invariant forall j :: 0 <= j < i ==> FieldOk(fields[j], values, rejecting)
    {
      var f := fields[i];
      var present := f.name in values;
      if f.required && !rejecting {
        if !present || values[f.name].Null? || (values[f.name].Str? && values[f.name].s == "") {
          FailsHere(fields, values, rejecting, i, Missing(f.name));
          return Some(Missing(f.name));
        }
      }
      if present {
        var v := values[f.name];
        var ok := true;
        match f.kind {
          case Boolean => ok := v.Flag?;
          case Number => ok := v.Num?;
          case Choice => ok := IsOption(f.options, v);
          case Text =>
        }
        if !ok {
          FailsHere(fields, values, rejecting, i, Mistyped(f.name));
          return Some(Mistyped(f.name));
        }
      }
      i := i + 1;
    }
    NoneFails(fields, values, rejecting);
    return None;
  }

  /** A rejection without values passes the field checks of any request. */
  lemma {:induction false} RejectionPasses<N(!new), R>(fields: seq<Field<N>>)
    ensures Accepts<N, R>(fields, map[], true)
  {
  }

  // ---------- a value for each field ----------

  /** What a client makes of one field: a value, nothing, or an error. */
  datatype Entry<R> = Given(v: Value<R>) | Absent | Refused

  /** An entry that satisfies the daemon's check of its field. */
  predicate EntryOk<N, R>(f: Field<N>, e: Entry<R>) {
    match e
    case Given(v) => Typed(f, v) && !IsBlank(v)
    case Absent => !f.required
    case Refused => true
  }

  /** The values of the first n fields, or none when one of them is refused. */
  function Collected<N(==), R>(fields: seq<Field<N>>, entry: Field<N> -> Entry<R>, n: nat): (r: Option<Values<N, R>>)
    requires n <= |fields|
  {
    if n == 0 then Some(map[])
    else
      var before, e := Collected(fields, entry, n - 1), entry(fields[n - 1]);
      if before.None? || e.Refused? then None
      else if e.Given? then Some(before.value[fields[n - 1].name := e.v])
      else before
  }

  lemma {:induction false} CollectedNames<N(!new), R>(fields: seq<Field<N>>, entry: Field<N> -> Entry<R>, n: nat, x: N)
    requires n <= |fields| && Collected(fields, entry, n).Some? && x in Collected(fields, entry, n).value
    ensures exists i :: 0 <= i < n && fields[i].name == x
  {
    if fields[n - 1].name != x {
      CollectedNames(fields, entry, n - 1, x);
    }
  }

  /** What is collected for a field is its entry. */
  lemma {:induction false} CollectedAt<N(!new), R>(fields: seq<Field<N>>, entry: Field<N> -> Entry<R>, n: nat, i: nat)
    requires DistinctNames(fields) && i < n <= |fields| && Collected(fields, entry, n).Some?
    ensures var values, e := Collected(fields, entry, n).value, entry(fields[i]);
            && !e.Refused?
            && (fields[i].name in values <==> e.Given?)
            && (e.Given? ==> values[fields[i].name] == e.v)
    decreases n
  {
    if i < n - 1 {
      CollectedAt(fields, entry, n - 1, i);
    } else {
      var before := Collected(fields, entry, n - 1).value;
      if fields[i].name in before {
        CollectedNames(fields, entry, n - 1, fields[i].name);
      }
    }
  }

  /** A client whose entries are ok sends only what the daemon accepts. */
  lemma {:induction false} CollectedIsAccepted<N(!new), R>(fields: seq<Field<N>>, entry: Field<N> -> Entry<R>)
    requires DistinctNames(fields) && Collected(fields, entry, |fields|).Some?
    requires forall i :: 0 <= i < |fields| ==> EntryOk(fields[i], entry(fields[i]))
    ensures Accepts(fields, Collected(fields, entry, |fields|).value, false)
  {
    forall i | 0 <= i < |fields|
      ensures FieldOk(fields[i], Collected(fields, entry, |fields|).value, false)
    {
      CollectedAt(fields, entry, |fields|, i);
      assert EntryOk(fields[i], entry(fields[i]));
    }
  }

  /** The loop both clients share: fill the values field by field, stop at an error. */
  method Collect<N(==,!new), R>(fields: seq<Field<N>>, entry: Field<N> -> Entry<R>) returns (r: Option<Values<N, R>>)
    ensures r == Collected(fields, entry, |fields|)
  {
    var values: Values<N, R> := map[];
    var i := 0;
    while i < |fields|
      invariant 0 <= i <= |fields|
      invariant Collected(fields, entry, i) == Some(values)
    {
      var e := entry(fields[i]);
      if e.Refused? {
        RefusedForGood(fields, entry, i + 1, |fields|);
        return None;
      }
      if e.Given? {
        values := values[fields[i].name := e.v];
      }
      i := i + 1;
    }
    return Some(values);
  }

  lemma {:induction false} RefusedForGood<N(!new), R>(fields: seq<Field<N>>, entry: Field<N> -> Entry<R>, i: nat, n: nat)
    requires i <= n <= |fields| && Collected(fields, entry, i).None?
    ensures Collected(fields, entry, n).None?
    decreases n
  {
    if i < n {
      RefusedForGood(fields, entry, i, n - 1);
    }
  }

  // ---------- the command line ----------

  /** Parsers of the standard library. */
  datatype Parsers<!R> = Parsers(float: string -> Option<R>, atoi: string -> Option<int>, lower: string -> string)

  /** coerceApprovalValue. */
  function Coerce<N, R>(ps: Parsers<R>, f: Field<N>, raw: string): (e: Entry<R>) {
    match f.kind
    case Boolean =>
      var s := ps.lower(raw);
      if s in ["true", "yes", "y", "1"] then Given(Flag(true))
      else if s in ["false", "no", "n", "0"] then Given(Flag(false))
      else Refused
    case Number => if ps.float(raw).Some? then Given(Num(ps.float(raw).value)) else Refused
    case Choice => if raw in f.options then Given(Str(raw)) else Refused
    case Text => Given(Str(raw))
  }

  /** One field on the command line: its flag, or the answer to a prompt when there is a terminal. */
  function CliEntry<N(==), R>(ps: Parsers<R>, supplied: map<N, string>, prompt: Option<Field<N> -> string>, f: Field<N>): (e: Entry<R>) {
    if f.name !in supplied && prompt.None? then (if f.required then Refused else Absent)
    else
      var raw := TrimSpace(if f.name in supplied then supplied[f.name] else prompt.value(f));
      if raw == "" then (if f.required then Refused else Absent) else Coerce(ps, f, raw)
  }

  lemma {:induction false} CliEntryOk<N(!new), R>(ps: Parsers<R>, supplied: map<N, string>, prompt: Option<Field<N> -> string>, f: Field<N>)
    ensures EntryOk(f, CliEntry(ps, supplied, prompt, f))
  {
  }

  // ---------- what is sent is what was entered ----------

  const YES := {"true", "yes", "y", "1"}
  const NO := {"false", "no", "n", "0"}

  /** The value v is what the text says, for a field of the given kind. */
  predicate SaysSo<N, R(==)>(ps: Parsers<R>, f: Field<N>, raw: string, v: Value<R>) {
    match f.kind
    case Boolean => v.Flag? && ps.lower(raw) in (if v.b then YES else NO)
    case Number => v.Num? && ps.float(raw) == Some(v.n)
    case Choice => v == Str(raw) && raw in f.options
    case Text => v == Str(raw)
  }

  lemma {:induction false} YesIsNotNo(s: string)
    ensures !(s in YES && s in NO)
  {
    if s in YES {
      assert s == "true" || s == "yes" || s == "y" || s == "1";
      assert s[0] != 'f' && s[0] != 'n' && s[0] != '0';
    }
  }

  /** A text is refused exactly when it says nothing for the field, and else it becomes the one value it says. */
  lemma {:induction false} CoerceMeans<N(!new), R(!new)>(ps: Parsers<R>, f: Field<N>, raw: string)
    ensures Coerce(ps, f, raw).Refused? <==> forall v :: !SaysSo(ps, f, raw, v)
    ensures forall v :: Coerce(ps, f, raw) == Given(v) <==> SaysSo(ps, f, raw, v)
    ensures !Coerce(ps, f, raw).Absent?
  {
    YesIsNotNo(ps.lower(raw));
    match f.kind
    case Boolean => assert ps.lower(raw) in YES ==> SaysSo(ps, f, raw, Flag(true)); assert ps.lower(raw) in NO ==> SaysSo(ps, f, raw, Flag(false));
    case Number => assert ps.float(raw).Some? ==> SaysSo(ps, f, raw, Num(ps.float(raw).value));
    case Choice => assert raw in f.options ==> SaysSo(ps, f, raw, Str(raw));
    case Text => assert SaysSo(ps, f, raw, Str(raw));
  }

  /** The text given for a field: its flag, or the answer to a prompt; None when nobody is asked. */
  function Entered<N(==)>(supplied: map<N, string>, prompt: Option<Field<N> -> string>, f: Field<N>): (raw: Option<string>) {
    if f.name in supplied then Some(TrimSpace(supplied[f.name]))
    else if prompt.Some? then Some(TrimSpace(prompt.value(f)))
    else None
  }

  /** The field is sent as entered: a value for a text, nothing for no text. */
  predicate SentAs<N(==), R(==)>(ps: Parsers<R>, raw: Option<string>, f: Field<N>, values: Values<N, R>) {
    if raw.None? || raw.value == "" then f.name !in values && !f.required
    else f.name in values && SaysSo(ps, f, raw.value, values[f.name])
  }

  /** Nothing can be sent for the field: it is required and empty, or its text says nothing. */
  ghost predicate Unsayable<N, R(!new)>(ps: Parsers<R>, raw: Option<string>, f: Field<N>) {
    if raw.None? || raw.value == "" then f.required else forall v :: !SaysSo(ps, f, raw.value, v)
  }

  lemma {:induction false} CliEntryMeans<N(!new), R(!new)>(ps: Parsers<R>, supplied: map<N, string>, prompt: Option<Field<N> -> string>, f: Field<N>)
    ensures var e, raw := CliEntry(ps, supplied, prompt, f), Entered(supplied, prompt, f);
            && (e.Refused? <==> Unsayable(ps, raw, f))
            && (e.Absent? <==> (raw.None? || raw.value == "") && !f.required)
            && (e.Given? ==> raw.Some? && raw.value != "" && SaysSo(ps, f, raw.value, e.v))
  {
    var raw := Entered(supplied, prompt, f);
    if raw.Some? && raw.value != "" {
      CoerceMeans(ps, f, raw.value);
    }
  }

  lemma {:induction false} NoneRefused<N(!new), R>(fields: seq<Field<N>>, entry: Field<N> -> Entry<R>, n: nat)
    requires n <= |fields|
    ensures Collected(fields, entry, n).None? <==> exists i :: 0 <= i < n && entry(fields[i]).Refused?
  {
    if n > 0 {
      NoneRefused(fields, entry, n - 1);
    }
  }

  /** Every flag names a field, and every field can be sent. */
  ghost predicate Sendable<N(!new), R(!new)>(
    ps: Parsers<R>, fields: seq<Field<N>>, supplied: map<N, string>, prompt: Option<Field<N> -> string>)
  {
    && (forall x :: x in supplied ==> Declared(fields, |fields|, x))
    && (forall i :: 0 <= i < |fields| ==> !Unsayable(ps, Entered(supplied, prompt, fields[i]), fields[i]))
  }

  /** The command line sends each field as it was entered, and refuses exactly when some field cannot be sent. */
  lemma {:induction false} CliSends<N(!new), R(!new)>(
    ps: Parsers<R>, fields: seq<Field<N>>, supplied: map<N, string>, prompt: Option<Field<N> -> string>)
    requires DistinctNames(fields)
    ensures var r := Collected(fields, CliEntries(ps, supplied, prompt), |fields|);
            && (r.None? <==> exists i :: 0 <= i < |fields| && Unsayable(ps, Entered(supplied, prompt, fields[i]), fields[i]))
            && (r.Some? ==> forall i :: 0 <= i < |fields| ==>
                  SentAs(ps, Entered(supplied, prompt, fields[i]), fields[i], r.value))
            && (r.Some? ==> forall x :: x in r.value ==> Declared(fields, |fields|, x))
  {
    var entry := CliEntries(ps, supplied, prompt);
    NoneRefused(fields, entry, |fields|);
    forall i | 0 <= i < |fields|
      ensures entry(fields[i]).Refused? <==> Unsayable(ps, Entered(supplied, prompt, fields[i]), fields[i])
    {
      CliEntryMeans(ps, supplied, prompt, fields[i]);
    }
    var r := Collected(fields, entry, |fields|);
    if r.Some? {
      forall i | 0 <= i < |fields|
        ensures SentAs(ps, Entered(supplied, prompt, fields[i]), fields[i], r.value)
      {
        CollectedAt(fields, entry, |fields|, i);
        CliEntryMeans(ps, supplied, prompt, fields[i]);
      }
      forall x | x in r.value
        ensures Declared(fields, |fields|, x)
      {
        CollectedNames(fields, entry, |fields|, x);
      }
    }
  }

  function CliEntries<N(==), R>(ps: Parsers<R>, supplied: map<N, string>, prompt: Option<Field<N> -> string>): (r: Field<N> -> Entry<R>) {
    (f: Field<N>) => CliEntry(ps, supplied, prompt, f)
  }

  /** One of the first n fields has the name. */
  ghost predicate Declared<N(!new)>(fields: seq<Field<N>>, n: nat, x: N)
    requires n <= |fields|
  {
    exists i :: 0 <= i < n && fields[i].name == x
  }

  method DeclaredNames<N(==,!new)>(fields: seq<Field<N>>) returns (known: set<N>)
    ensures forall x :: x in known <==> Declared(fields, |fields|, x)
  {
    known := {};
    var i := 0;
    while i < |fields|
      invariant 0 <= i <= |fields|
      invariant forall x :: x in known <==> Declared(fields, i, x)
    {
      known := known + {fields[i].name};
      i := i + 1;
    }
  }

  /** resolveApprovalValues: unknown flags are refused; what is accepted, the daemon accepts. */
  method ResolveApprovalValues<N(==,!new), R(==,!new)>(
    ps: Parsers<R>, fields: seq<Field<N>>, supplied: map<N, string>, prompt: Option<Field<N> -> string>)
    returns (r: Option<Values<N, R>>)
    requires DistinctNames(fields)
    ensures r.Some? ==> Accepts(fields, r.value, false)
    ensures r.Some? && fields != [] ==> forall x :: x in supplied ==> Declared(fields, |fields|, x)
    ensures r.Some? ==> forall i :: 0 <= i < |fields| ==>
              SentAs(ps, Entered(supplied, prompt, fields[i]), fields[i], r.value)
    ensures r.None? <==> (fields != [] && !Sendable(ps, fields, supplied, prompt))
  {
    if |fields| == 0 {
      return Some(map[]);
    }
    var known := DeclaredNames(fields);
    if !(supplied.Keys <= known) {
      return None;
    }
    var entry := CliEntries(ps, supplied, prompt);
    r := Collect(fields, entry);
    CliSends(ps, fields, supplied, prompt);
    if r.Some? {
      forall i | 0 <= i < |fields|
        ensures EntryOk(fields[i], entry(fields[i]))
      {
        CliEntryOk(ps, supplied, prompt, fields[i]);
      }
      CollectedIsAccepted(fields, entry);
    }
  }

  // ---------- the dashboard form ----------

  /** What the form holds for choices and booleans: an option, or a flag. */
  predicate HeldOk<N(==), R>(f: Field<N>, held: Values<N, R>) {
    match f.kind
    case Boolean => f.name in held ==> held[f.name].Flag?
    case Choice => f.name in held ==> held[f.name].Str? && held[f.name].s in f.options
    case _ => true
  }

  ghost predicate FormOk<N(!new), R>(fields: seq<Field<N>>, held: Values<N, R>) {
    forall i :: 0 <= i < |fields| ==> HeldOk(fields[i], held)
  }

  /** The last option equal to the held value, or the first. */
  function Selected<R(==)>(options: seq<string>, held: Option<Value<R>>): (i: nat)
    ensures options != [] ==> i < |options|
  {
    if options == [] then 0
    else if held == Some(Str(options[|options| - 1])) then |options| - 1
    else Selected(options[..|options| - 1], held)
  }

  const NEXT := ["right", "l", " "]
  const PREVIOUS := ["left", "h"]

  /** Where a key moves the selection among n options, if it does. */
  function Turn(atoi: string -> Option<int>, n: nat, cur: nat, key: string): (r: Option<nat>)
    requires cur < n
    ensures r.Some? ==> r.value < n
  {
    if key in PREVIOUS then Some((cur + n - 1) % n)
    else if key in NEXT then Some((cur + 1) % n)
    else if atoi(key).Some? && 1 <= atoi(key).value <= n then Some(atoi(key).value - 1)
    else None
  }

  /** editApprovalField on a choice or a boolean. */
  function EditHeld<N(==), R(==)>(atoi: string -> Option<int>, f: Field<N>, held: Values<N, R>, key: string): (r: Values<N, R>) {
    var cur := if f.name in held then Some(held[f.name]) else None;
    match f.kind
    case Choice =>
      if f.options == [] then held
      else
        var t := Turn(atoi, |f.options|, Selected(f.options, cur), key);
        if t.Some? then held[f.name := Str(f.options[t.value])] else held
    case Boolean =>
      if key == "y" then held[f.name := Flag(true)]
      else if key == "n" then held[f.name := Flag(false)]
      else if key in NEXT + PREVIOUS then held[f.name := Flag(!(cur.Some? && cur.value == Flag(true)))]
      else held
    case _ => held
  }

  /** A key on one field keeps every field's held value well typed. */
  lemma {:induction false} EditKeepsForm<N(!new), R>(
    atoi: string -> Option<int>, fields: seq<Field<N>>, i: nat, held: Values<N, R>, key: string)
    requires DistinctNames(fields) && i < |fields| && FormOk(fields, held)
    ensures FormOk(fields, EditHeld(atoi, fields[i], held, key))
  {
    var after := EditHeld(atoi, fields[i], held, key);
    forall j | 0 <= j < |fields|
      ensures HeldOk(fields[j], after)
    {
      assert HeldOk(fields[j], held);
      assert j < i ==> fields[j].name != fields[i].name;
      assert i < j ==> fields[i].name != fields[j].name;
    }
  }

  /** The text typed into a field after one more key. */
  function EditDraft(draft: string, key: string): (r: string) {
    if key == "backspace" then (if draft == "" then draft else draft[..|draft| - 1])
    else if key == "ctrl+u" then ""
    else if |key| == 1 then draft + key
    else draft
  }

  /** The drafts after one more key on a field: choices and booleans have none. */
  function Typing<N(==)>(f: Field<N>, draft: map<N, string>, key: string): (r: map<N, string>) {
    if f.kind == Boolean || f.kind == Choice then draft
    else draft[f.name := EditDraft(if f.name in draft then draft[f.name] else "", key)]
  }

  /** The field before and the field after, which stop at the ends. */
  function Above(idx: nat): (r: nat)
    ensures r + 1 == idx || (r == 0 == idx)
  {
    if idx > 0 then idx - 1 else 0
  }

  function Below(n: nat, idx: nat): (r: nat)
    ensures if idx + 1 < n then r == idx + 1 else r == idx
  {
    if idx + 1 < n then idx + 1 else idx
  }

  /** What enter makes of one field. */
  function FormEntry<N(==), R>(ps: Parsers<R>, held: Values<N, R>, draft: map<N, string>, f: Field<N>): (e: Entry<R>) {
    match f.kind
    case Boolean => Given(Flag(f.name in held && held[f.name].Flag? && held[f.name].b))
    case Choice =>
      if f.name in held && held[f.name].Str? && held[f.name].s != "" then Given(held[f.name])
      else if f.required then Refused else Absent
    case _ =>
      var raw := TrimSpace(if f.name in draft then draft[f.name] else "");
      if raw == "" then (if f.required then Refused else Absent)
      else if f.kind == Text then Given(Str(raw))
      else if ps.float(raw).Some? then Given(Num(ps.float(raw).value))
      else Refused
  }

  function FormEntries<N(==), R>(ps: Parsers<R>, held: Values<N, R>, draft: map<N, string>): (r: Field<N> -> Entry<R>) {
    (f: Field<N>) => FormEntry(ps, held, draft, f)
  }

  /** The keys that do not edit the focused field. */
  const CONTROL := ["esc", "ctrl+r", "enter", "up", "shift+tab", "down", "tab"]

  datatype Answer<!N, R> = Approve(values: Values<N, R>) | Reject

  class Form<N(==,!new), R(==,!new)> {
    const ps: Parsers<R>
    const fields: seq<Field<N>>
    var open: bool
    var idx: nat
    var held: Values<N, R>
    var draft: map<N, string>

    ghost predicate Valid()
      reads this
    {
      DistinctNames(fields) && FormOk(fields, held) && (fields != [] ==> idx < |fields|)
    }

    /** openApprovalForm: every choice starts at its first option, every boolean at false. */
    constructor (ps: Parsers<R>, fields: seq<Field<N>>)
      requires DistinctNames(fields)
      ensures Valid() && this.fields == fields && this.ps == ps && open
      ensures held == Seeded(fields, |fields|)
      ensures forall i :: 0 <= i < |fields| ==> OpensAs(fields[i], held)
    {
      this.ps, this.fields := ps, fields;
      open, idx := true, 0;
      held, draft := map[], map[];
      new;
      var i := 0;
      while i < |fields|
        invariant 0 <= i <= |fields| && this.ps == ps && this.fields == fields && open && idx == 0
        invariant held == Seeded(fields, i)
      {
        var f := fields[i];
        match f.kind {
          case Boolean => held := held[f.name := Flag(false)];
          case Choice =>
            if |f.options| > 0 {
              held := held[f.name := Str(f.options[0])];
            }
          case _ => draft := draft[f.name := ""];
        }
        i := i + 1;
      }
      SeededOk<N, R>(fields, |fields|);
      SeededAs<N, R>(fields, |fields|);
    }

    /** handleApprovalFormKey: whatever was typed before, an approval is one the daemon accepts. */
    method HandleKey(key: string) returns (answer: Option<Answer<N, R>>)
      requires Valid()
      modifies this
      ensures Valid()
      ensures answer.Some? && answer.value.Approve? ==> key == "enter" && Accepts(fields, answer.value.values, false)
      ensures answer.Some? && answer.value.Approve? ==>
                forall i :: 0 <= i < |fields| ==> ShownAs(ps, old(held), old(draft), fields[i], answer.value.values)
      ensures answer == match key
                case "enter" =>
                  var r := Collected(fields, FormEntries(ps, old(held), old(draft)), |fields|);
                  if r.Some? then Some(Approve(r.value)) else None
                case "ctrl+r" => Some(Reject)
                case _ => None
      ensures open == (old(open) && key != "esc" && answer.None?)
      ensures held == if key in CONTROL || fields == [] then old(held)
                      else EditHeld(ps.atoi, fields[old(idx)], old(held), key)
      ensures draft == if key in CONTROL || fields == [] then old(draft)
                       else Typing(fields[old(idx)], old(draft), key)
      ensures idx == match key
                case "up" => Above(old(idx))
                case "shift+tab" => Above(old(idx))
                case "down" => Below(|fields|, old(idx))
                case "tab" => Below(|fields|, old(idx))
                case _ => old(idx)
    {
      answer := None;
      if key == "esc" {
        open := false;
      } else if key == "ctrl+r" {
        open := false;
        answer := Some(Reject);
      } else if key == "enter" {
        var entry := FormEntries(ps, held, draft);
        var values := Collect(fields, entry);
        if values.Some? {
          FormAccepted(ps, fields, held, draft);
          FormSends(ps, fields, held, draft);
          open := false;
          answer := Some(Approve(values.value));
        }
      } else if key == "up" || key == "shift+tab" {
        idx := if idx > 0 then idx - 1 else 0;
      } else if key == "down" || key == "tab" {
        idx := if idx + 1 < |fields| then idx + 1 else idx;
      } else if |fields| > 0 {
        EditKeepsForm(ps.atoi, fields, idx, held, key);
        EditField(fields[idx], key);
      }
    }

    /** editApprovalField. */
    method EditField(f: Field<N>, key: string)
      modifies this`held, this`draft
      ensures held == EditHeld(ps.atoi, f, old(held), key)
      ensures draft == Typing(f, old(draft), key)
    {
      match f.kind
      case Choice =>
        if |f.options| == 0 {
          return;
        }
        var cur := SelectedOption(f);
        if key in PREVIOUS {
          cur := (cur - 1 + |f.options|) % |f.options|;
        } else if key in NEXT {
          cur := (cur + 1) % |f.options|;
        } else if ps.atoi(key).Some? && 1 <= ps.atoi(key).value <= |f.options| {
          cur := ps.atoi(key).value - 1;
        } else {
          return;
        }
        held := held[f.name := Str(f.options[cur])];
      case Boolean =>
        if key in NEXT + PREVIOUS + ["y", "n"] {
          var cur := f.name in held && held[f.name] == Flag(true);
          if key == "y" {
            cur := false;
          } else if key == "n" {
            held := held[f.name := Flag(false)];
            return;
          }
          held := held[f.name := Flag(!cur)];
        }
      case _ =>
        draft := draft[f.name := EditDraft(if f.name in draft then draft[f.name] else "", key)];
    }

    /** The loop that finds the option now held. */
    method SelectedOption(f: Field<N>) returns (cur: nat)
      ensures cur == Selected(f.options, if f.name in held then Some(held[f.name]) else None)
    {
      cur := 0;
      var i := 0;
      ghost var now := if f.name in held then Some(held[f.name]) else None;
      while i < |f.options|
        invariant 0 <= i <= |f.options|
        invariant cur == Selected(f.options[..i], now)
      {
        assert f.options[..i + 1][..i] == f.options[..i];
        if f.name in held && held[f.name] == Str(f.options[i]) {
          cur := i;
        }
        i := i + 1;
      }
      assert f.options[..|f.options|] == f.options;
    }
  }

  function Seeded<N(==), R>(fields: seq<Field<N>>, n: nat): (r: Values<N, R>)
    requires n <= |fields|
  {
    if n == 0 then map[]
    else
      var before, f := Seeded<N, R>(fields, n - 1), fields[n - 1];
      if f.kind == Boolean then before[f.name := Flag(false)]
      else if f.kind == Choice && f.options != [] then before[f.name := Str(f.options[0])]
      else before
  }

  lemma {:induction false} SeededNames<N(!new), R>(fields: seq<Field<N>>, n: nat, x: N)
    requires n <= |fields| && x in Seeded<N, R>(fields, n)
    ensures Declared(fields, n, x)
  {
    if fields[n - 1].name != x {
      SeededNames<N, R>(fields, n - 1, x);
    }
  }

  /** How a field is shown at first: a boolean as false, a choice as its first option, and a text empty. */
  predicate OpensAs<N(==), R>(f: Field<N>, held: Values<N, R>) {
    match f.kind
    case Boolean => f.name in held && held[f.name].Flag? && !held[f.name].b
    case Choice => if f.options == [] then f.name !in held else f.name in held && held[f.name].Str? && held[f.name].s == f.options[0]
    case _ => f.name !in held
  }

  lemma {:induction false} SeededAs<N(!new), R>(fields: seq<Field<N>>, n: nat)
    requires DistinctNames(fields) && n <= |fields|
    ensures forall i :: 0 <= i < n ==> OpensAs(fields[i], Seeded<N, R>(fields, n))
  {
    if n > 0 {
      SeededAs<N, R>(fields, n - 1);
      var before, f := Seeded<N, R>(fields, n - 1), fields[n - 1];
      if f.name in before {
        SeededNames<N, R>(fields, n - 1, f.name);
      }
    }
  }

  /** The form starts well typed. */
  lemma {:induction false} SeededOk<N(!new), R>(fields: seq<Field<N>>, n: nat)
    requires DistinctNames(fields) && n <= |fields|
    ensures forall i :: 0 <= i < n ==> HeldOk(fields[i], Seeded<N, R>(fields, n))
  {
    if n > 0 {
      SeededOk<N, R>(fields, n - 1);
      var before, f := Seeded<N, R>(fields, n - 1), fields[n - 1];
      if f.name in before {
        SeededNames<N, R>(fields, n - 1, f.name);
      }
    }
  }

  lemma {:induction false} FormEntryOk<N(!new), R>(ps: Parsers<R>, held: Values<N, R>, draft: map<N, string>, f: Field<N>)
    requires HeldOk(f, held)
    ensures EntryOk(f, FormEntry(ps, held, draft, f))
  {
  }

  /** What the form shows for a field: the typed text, the chosen option, or the flag. */
  predicate ShownAs<N(==), R(==)>(ps: Parsers<R>, held: Values<N, R>, draft: map<N, string>, f: Field<N>, values: Values<N, R>) {
    match f.kind
    case Boolean => f.name in values && values[f.name] == (if f.name in held && held[f.name] == Flag(true) then Flag(true) else Flag(false))
    case Choice =>
      if f.name in held && held[f.name].Str? && held[f.name].s != "" then f.name in values && values[f.name] == held[f.name]
      else f.name !in values && !f.required
    case _ => SentAs(ps, Some(TrimSpace(if f.name in draft then draft[f.name] else "")), f, values)
  }

  /** Enter sends each field as it is shown. */
  lemma {:induction false} FormSends<N(!new), R(!new)>(ps: Parsers<R>, fields: seq<Field<N>>, held: Values<N, R>, draft: map<N, string>)
    requires DistinctNames(fields)
    ensures var r := Collected(fields, FormEntries(ps, held, draft), |fields|);
            r.Some? ==> forall i :: 0 <= i < |fields| ==> ShownAs(ps, held, draft, fields[i], r.value)
  {
    var entry := FormEntries(ps, held, draft);
    if Collected(fields, entry, |fields|).Some? {
      forall i | 0 <= i < |fields|
        ensures ShownAs(ps, held, draft, fields[i], Collected(fields, entry, |fields|).value)
      {
        CollectedAt(fields, entry, |fields|, i);
      }
    }
  }

  /** The text after the given keys. */
  function AfterKeys(draft: string, keys: seq<char>): (r: string)
    decreases |keys|
  {
    if keys == [] then draft else AfterKeys(EditDraft(draft, [keys[0]]), keys[1..])
  }

  /** Typing characters appends them, and a backspace takes the last one back. */
  lemma {:induction false} TypingAppends(draft: string, keys: seq<char>)
    ensures AfterKeys(draft, keys) == draft + keys
    ensures keys != [] ==> EditDraft(draft + keys, "backspace") == draft + keys[..|keys| - 1]
    ensures EditDraft(draft, "ctrl+u") == ""
    decreases |keys|
  {
    if keys == [] {
      assert draft + keys == draft;
    } else {
      TypingAppends(EditDraft(draft, [keys[0]]), keys[1..]);
      assert draft + [keys[0]] + keys[1..] == draft + keys;
      assert (draft + keys)[..|draft + keys| - 1] == draft + keys[..|keys| - 1];
    }
  }

  /** The options are all different. */
  ghost predicate Different(options: seq<string>) {
    forall i, j :: 0 <= i < j < |options| ==> options[i] != options[j]
  }

  lemma {:induction false} SelectedIs<R(!new)>(options: seq<string>, i: nat)
    requires Different(options) && i < |options|
    ensures Selected<R>(options, Some(Str(options[i]))) == i
  {
    if i < |options| - 1 {
      SelectedIs<R>(options[..|options| - 1], i);
    }
  }

  function After(n: nat, i: nat): (k: nat)
    requires i < n
    ensures k < n
  {
    if i + 1 < n then i + 1 else 0
  }

  /** Forward goes to the next option and from the last to the first, back undoes it, and a number goes to its option. */
  lemma {:induction false} TurnMeans(atoi: string -> Option<int>, n: nat, i: nat, key: string)
    requires i < n
    ensures key in NEXT ==> Turn(atoi, n, i, key) == Some(After(n, i))
    ensures key in PREVIOUS ==> Turn(atoi, n, After(n, i), key) == Some(i)
    ensures key !in NEXT && key !in PREVIOUS ==>
              Turn(atoi, n, i, key) == if atoi(key).Some? && 1 <= atoi(key).value <= n then Some(atoi(key).value - 1) else None
  {
    NextIsNotPrevious(key);
    Around(n, i);
  }

  /** A key on a choice moves from the option held to the one it names. */
  lemma {:induction false} ChoiceKey<N(!new), R(!new)>(atoi: string -> Option<int>, f: Field<N>, held: Values<N, R>, i: nat, key: string)
    requires f.kind == Choice && Different(f.options) && i < |f.options| && f.name in held && held[f.name] == Str(f.options[i])
    ensures var t := Turn(atoi, |f.options|, i, key);
            EditHeld(atoi, f, held, key) == if t.Some? then held[f.name := Str(f.options[t.value])] else held
  {
    SelectedIs<R>(f.options, i);
  }

  lemma {:induction false} NextIsNotPrevious(k: string)
    ensures !(k in NEXT && k in PREVIOUS)
  {
    if k in PREVIOUS {
      assert k == "left" || k == "h";
      assert k[0] == 'l' ==> |k| == 4;
    }
    if k in NEXT {
      assert k == "right" || k == "l" || k == " ";
    }
  }

  lemma {:induction false} Times(n: nat, q: int)
    ensures q <= 0 ==> n * q <= 0
    ensures q >= 2 ==> n * q >= n + n
    ensures n * 1 == n
  {
    if q >= 2 {
      assert n * q == n + n + n * (q - 2);
    }
  }

  lemma {:induction false} WrapsOnce(n: nat, x: nat)
    requires 0 < n <= x < n + n
    ensures x % n == x - n
  {
    Times(n, x / n);
  }

  lemma {:induction false} Around(n: nat, i: nat)
    requires i < n
    ensures (i + 1) % n == After(n, i) && (After(n, i) + n - 1) % n == i
  {
    if i + 1 < n {
      WrapsOnce(n, n + i);
    } else {
      WrapsOnce(n, n);
    }
  }

  /** On a boolean: y and n set it, and the other keys turn it over. */
  lemma {:induction false} BooleanKeys<N(!new), R(!new)>(atoi: string -> Option<int>, f: Field<N>, held: Values<N, R>, b: bool)
    requires f.kind == Boolean && f.name in held && held[f.name] == Flag(b)
    ensures EditHeld(atoi, f, held, "y")[f.name] == Flag(true) && EditHeld(atoi, f, held, "n")[f.name] == Flag(false)
    ensures EditHeld(atoi, f, held, "right")[f.name] == EditHeld(atoi, f, held, "left")[f.name] == Flag(!b)
  {
    assert "right" in NEXT && "left" in PREVIOUS;
    assert "right"[0] == 'r' && "left"[0] == 'l' && "y"[0] == 'y' && "n"[0] == 'n';
  }

  /** What the form accepts on enter, the daemon accepts. */
  lemma {:induction false} FormAccepted<N(!new), R>(ps: Parsers<R>, fields: seq<Field<N>>, held: Values<N, R>, draft: map<N, string>)
    requires DistinctNames(fields) && FormOk(fields, held)
    ensures var r := Collected(fields, FormEntries(ps, held, draft), |fields|);
            r.Some? ==> Accepts(fields, r.value, false)
  {
    var entry := FormEntries(ps, held, draft);
    if Collected(fields, entry, |fields|).Some? {
      forall i | 0 <= i < |fields|
        ensures EntryOk(fields[i], entry(fields[i]))
      {
        assert HeldOk(fields[i], held);
        FormEntryOk(ps, held, draft, fields[i]);
      }
      CollectedIsAccepted(fields, entry);
    }
  }
}
