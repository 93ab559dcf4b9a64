/** The session clean-up script: the listing payload is normalised to
    (id, status) entries whatever its shape, entries without an id are
    dropped, the operator's answer is parsed into session numbers, and a
    stop is issued for each number that names a listed session. The
    listing reply and the stop calls are outside the model: the reply's
    `data` field is an input and the stops are returned in order. */
module Cleanup {
  import opened Common

  /** A JSON value as far as the script looks at it. `Other` is any value
      that is neither a string nor an object (null, a boolean, a number, a
      list), given by its Python `str()` text and its truthiness. */
  datatype Value =
    | Str(s: string)
    | Dict(fields: map<string, Value>)
    | Other(text: string, truthy: bool)

  /** The `data` field of the listing reply: absent, or the value found. A
      list is given by its elements. */
  datatype Data =
    | Missing
    | DataList(items: seq<Value>)
    | DataDict(fields: map<string, Value>)
    | DataStr(s: string)
    | DataScalar

  /** A normalised session: `{"id": ..., "status": ...}`; `None` is Python's
      `None` (a missing key, or a JSON null). */
  datatype Entry = Entry(id: Option<Value>, status: Value)

  const Unknown: string := "unknown"
  const NotIterable: string := "data is not iterable"

  /** Python truthiness; `None` is false. */
  predicate Truthy(v: Option<Value>)
  {
    match v
    case None => false
    case Some(Str(s)) => s != []
    case Some(Dict(m)) => m != map[]
    case Some(Other(_, t)) => t
  }

  /** `dict.get(key)`. */
  function Get(m: map<string, Value>, key: string): Option<Value>
  {
    if key in m then Some(m[key]) else None
  }

  /** `a or b`. */
  function Or(a: Option<Value>, b: Option<Value>): Option<Value>
  {
    if Truthy(a) then a else b
  }

  const IdKeys: seq<string> := ["session_id", "sessionId", "id", "sid"]
  const StatusKeys: seq<string> := ["connectionStatus", "connection_status", "status"]

  /** `_normalize`: every normalised entry has a truthy status. */
  function Normalize(e: Value): (r: Entry)
    ensures Truthy(Some(r.status))
  {
    match e
    case Str(s) => Entry(Some(Str(s)), Str(Unknown))
    case Dict(m) =>
      var sid := Or(Or(Or(Get(m, "session_id"), Get(m, "sessionId")), Get(m, "id")), Get(m, "sid"));
      var st := Or(Or(Or(Get(m, "connectionStatus"), Get(m, "connection_status")), Get(m, "status")),
                   Some(Str(Unknown)));
      Entry(sid, st.value)
    case Other(text, _) => Entry(Some(Str(text)), Str(Unknown))
  }

  /** The value of the first key whose value is truthy. */
  predicate FirstTruthyAt(m: map<string, Value>, keys: seq<string>, i: int)
  {
    && 0 <= i < |keys| && Truthy(Get(m, keys[i]))
    && forall j :: 0 <= j < i ==> !Truthy(Get(m, keys[j]))
  }

  /** Strings and non-object values are their own id with status
      "unknown"; an object takes its id from the first truthy of
      session_id, sessionId, id, sid (the value of sid when none is) and its
      status from the first truthy of connectionStatus, connection_status,
      status, else "unknown". */
  lemma NormalizeFields(e: Value)
    ensures e.Str? ==> Normalize(e) == Entry(Some(e), Str(Unknown))
    ensures e.Other? ==> Normalize(e) == Entry(Some(Str(e.text)), Str(Unknown))
    ensures e.Dict? ==>
      && (forall i :: FirstTruthyAt(e.fields, IdKeys, i) ==> Normalize(e).id == Get(e.fields, IdKeys[i]))
      && ((forall i :: 0 <= i < |IdKeys| ==> !Truthy(Get(e.fields, IdKeys[i]))) ==>
            Normalize(e).id == Get(e.fields, "sid"))
      && (forall i :: FirstTruthyAt(e.fields, StatusKeys, i) ==>
            Some(Normalize(e).status) == Get(e.fields, StatusKeys[i]))
      && ((forall i :: 0 <= i < |StatusKeys| ==> !Truthy(Get(e.fields, StatusKeys[i]))) ==>
            Normalize(e).status == Str(Unknown))
  {
    if e.Dict? {
      var m := e.fields;
      forall i | FirstTruthyAt(m, IdKeys, i)
        ensures Normalize(e).id == Get(m, IdKeys[i])
      {
        assert i == 0 || !Truthy(Get(m, IdKeys[0]));
        assert i <= 1 || !Truthy(Get(m, IdKeys[1]));
        assert i <= 2 || !Truthy(Get(m, IdKeys[2]));
      }
      if forall i :: 0 <= i < |IdKeys| ==> !Truthy(Get(m, IdKeys[i])) {
        assert !Truthy(Get(m, IdKeys[0])) && !Truthy(Get(m, IdKeys[1])) && !Truthy(Get(m, IdKeys[2]));
      }
      forall i | FirstTruthyAt(m, StatusKeys, i)
        ensures Some(Normalize(e).status) == Get(m, StatusKeys[i])
      {
        assert i == 0 || !Truthy(Get(m, StatusKeys[0]));
        assert i <= 1 || !Truthy(Get(m, StatusKeys[1]));
      }
      if forall i :: 0 <= i < |StatusKeys| ==> !Truthy(Get(m, StatusKeys[i])) {
        assert !Truthy(Get(m, StatusKeys[0])) && !Truthy(Get(m, StatusKeys[1]))
          && !Truthy(Get(m, StatusKeys[2]));
      }
    }
  }

  /** The normalised entries whose id is truthy, in order. */
  function Live(entries: seq<Value>): (r: seq<Entry>)
    ensures |r| <= |entries|
    ensures forall k :: 0 <= k < |r| ==> Truthy(r[k].id)
  {
    if entries == [] then []
    else
      var n := Normalize(entries[0]);
      (if Truthy(n.id) then [n] else []) + Live(entries[1..])
  }

  /** The iterated entries: an object payload is wrapped in a list, a
      string is iterated character by character, and a null, boolean or
      number cannot be iterated. */
  function Entries(data: Data): Result<seq<Value>, string>
  {
    match data
    case Missing => Ok([])
    case DataList(items) => Ok(items)
    case DataDict(m) => Ok([Dict(m)])
    case DataStr(s) => Ok(seq(|s|, i requires 0 <= i < |s| => Str([s[i]])))
    case DataScalar => Err(NotIterable)
  }

  /** `list_sessions` after the listing call. */
  function ListSessions(data: Data): Result<seq<Entry>, string>
  {
    var entries := Entries(data);
    if entries.Err? then Err(entries.error) else Ok(Live(entries.value))
  }

  /** Filtering distributes over concatenation, so it keeps input order. */
  lemma {:induction false} LiveAppend(a: seq<Value>, b: seq<Value>)
    ensures Live(a + b) == Live(a) + Live(b)
  {
    if a == [] {
      assert a + b == b;
    } else {
      assert (a + b)[1..] == a[1..] + b;
      LiveAppend(a[1..], b);
      var head := if Truthy(Normalize(a[0]).id) then [Normalize(a[0])] else [];
      assert Live(a + b) == head + (Live(a[1..]) + Live(b));
      assert Live(a) == head + Live(a[1..]);
    }
  }

  /** An entry is listed exactly when its normalised id is truthy: every
      listed entry is the normalisation of some input entry, and every
      input entry with a truthy id is listed. */
  lemma {:induction false} LiveExactly(entries: seq<Value>)
    ensures forall x :: x in Live(entries) <==> exists i :: 0 <= i < |entries| && x == Normalize(entries[i]) && Truthy(x.id)
  {
    if entries != [] {
      LiveExactly(entries[1..]);
      var n := Normalize(entries[0]);
      forall x | x in Live(entries)
        ensures exists i :: 0 <= i < |entries| && x == Normalize(entries[i]) && Truthy(x.id)
      {
        if x != n || !Truthy(n.id) {
          assert x in Live(entries[1..]);
          var i :| 0 <= i < |entries[1..]| && x == Normalize(entries[1..][i]) && Truthy(x.id);
          assert entries[1..][i] == entries[i + 1];
        }
      }
      forall i | 0 <= i < |entries| && Truthy(Normalize(entries[i]).id)
        ensures Normalize(entries[i]) in Live(entries)
      {
        if i > 0 {
          assert entries[1..][i - 1] == entries[i];
        }
      }
    }
  }

  /** When every entry has a truthy id nothing is dropped. */
  lemma {:induction false} LiveKeepsAll(entries: seq<Value>)
    requires forall i :: 0 <= i < |entries| ==> Truthy(Normalize(entries[i]).id)
    ensures Live(entries) == seq(|entries|, i requires 0 <= i < |entries| => Normalize(entries[i]))
  {
    if entries != [] {
      LiveKeepsAll(entries[1..]);
    }
  }

  /** A single object payload lists as one entry when it has an id, and as
      none otherwise; a missing payload lists nothing. */
  lemma ListSessionsShapes(m: map<string, Value>)
    ensures ListSessions(Missing) == Ok([])
    ensures Truthy(Normalize(Dict(m)).id) ==> ListSessions(DataDict(m)) == Ok([Normalize(Dict(m))])
    ensures !Truthy(Normalize(Dict(m)).id) ==> ListSessions(DataDict(m)) == Ok([])
    ensures ListSessions(DataScalar).Err?
  {
    var one := [Dict(m)];
    assert one[1..] == [];
    var n := Normalize(Dict(m));
    assert Live(one) == (if Truthy(n.id) then [n] else []) + Live([]);
    assert [n] + [] == [n];
  }

  /** Session numbers 1..n. */
  function Range(n: nat): (r: seq<int>)
    ensures |r| == n && forall i :: 0 <= i < n ==> r[i] == i + 1
  {
    seq(n, i requires 0 <= i < n => i + 1)
  }

  /** `str.isdigit()` on ASCII: non-empty and all digits. */
  predicate AllDigits(s: string)
  {
    s != [] && forall i :: 0 <= i < |s| ==> IsDigit(s[i])
  }

  /** `[int(x) for x in tokens if x.strip().isdigit()]`. */
  function Picks(tokens: seq<string>): (r: seq<int>)
    ensures |r| <= |tokens|
    ensures forall k :: 0 <= k < |r| ==> r[k] >= 0
  {
    if tokens == [] then []
    else
      var t := Strip(tokens[0]);
      (if AllDigits(t) then [ParseDecimal(t) as int] else []) + Picks(tokens[1..])
  }

  /** The words that select every session. */
  predicate SelectsAll(sel: string)
  {
    sel == "a" || sel == "all" || sel == "*"
  }

  /** The numbers chosen: all of 1..n with `--all` or an answer that is one
      of the words above (after trimming and lower-casing); otherwise the
      numeric comma-separated tokens. */
  function Selection(all: bool, answer: string, n: nat): seq<int>
  {
    var sel := Lower(Strip(answer));
    if all || SelectsAll(sel) then Range(n) else Picks(Split(sel, ','))
  }

  /** The chosen numbers that name a listed session, in order, duplicates
      kept. */
  function InRange(choice: seq<int>, n: nat): (r: seq<int>)
    ensures |r| <= |choice|
    ensures forall k :: 0 <= k < |r| ==> 1 <= r[k] <= n
  {
    if choice == [] then []
    else (if 1 <= choice[0] <= n then [choice[0]] else []) + InRange(choice[1..], n)
  }

  /** The ids stopped for a choice: one per in-range number, in order. */
  function Stops(sessions: seq<Entry>, choice: seq<int>): (r: seq<Option<Value>>)
    ensures |r| == |InRange(choice, |sessions|)|
  {
    if choice == [] then []
    else
      var idx := choice[0];
      (if 1 <= idx <= |sessions| then [sessions[idx - 1].id] else []) + Stops(sessions, choice[1..])
  }

  /** Each stop is for the session the corresponding in-range number
      names. */
  lemma {:induction false} StopsAt(sessions: seq<Entry>, choice: seq<int>)
    ensures var acted := InRange(choice, |sessions|);
      forall k :: 0 <= k < |acted| ==> Stops(sessions, choice)[k] == sessions[acted[k] - 1].id
  {
    if choice != [] {
      StopsAt(sessions, choice[1..]);
    }
  }

  /** Only listed sessions, whose ids are truthy, are stopped. */
  lemma StopsLive(sessions: seq<Entry>, choice: seq<int>)
    requires forall i :: 0 <= i < |sessions| ==> Truthy(sessions[i].id)
    ensures forall k :: 0 <= k < |Stops(sessions, choice)| ==> Truthy(Stops(sessions, choice)[k])
  {
    StopsAt(sessions, choice);
  }

  /** One more chosen number adds at most its own stop at the end. */
  lemma {:induction false} StopsSnoc(sessions: seq<Entry>, choice: seq<int>, idx: int)
    ensures Stops(sessions, choice + [idx])
      == Stops(sessions, choice) + (if 1 <= idx <= |sessions| then [sessions[idx - 1].id] else [])
  {
    if choice == [] {
      assert [] + [idx] == [idx];
      assert [idx][1..] == [];
    } else {
      var c := choice + [idx];
      assert c[0] == choice[0] && c[1..] == choice[1..] + [idx];
      StopsSnoc(sessions, choice[1..], idx);
      var idx0 := choice[0];
      var head := if 1 <= idx0 <= |sessions| then [sessions[idx0 - 1].id] else [];
      var tail := if 1 <= idx <= |sessions| then [sessions[idx - 1].id] else [];
      assert Stops(sessions, choice) == head + Stops(sessions, choice[1..]);
      assert Stops(sessions, c) == head + (Stops(sessions, choice[1..]) + tail);
      AppendAssoc(head, Stops(sessions, choice[1..]), tail);
    }
  }

  /** Filtering out-of-range numbers keeps order and duplicates: it
      distributes over concatenation and leaves an in-range choice whole. */
  lemma {:induction false} InRangeAppend(a: seq<int>, b: seq<int>, n: nat)
    ensures InRange(a + b, n) == InRange(a, n) + InRange(b, n)
  {
    if a == [] {
      assert a + b == b;
    } else {
      assert (a + b)[1..] == a[1..] + b;
      InRangeAppend(a[1..], b, n);
      var head := if 1 <= a[0] <= n then [a[0]] else [];
      assert InRange(a + b, n) == head + (InRange(a[1..], n) + InRange(b, n));
      AppendAssoc(head, InRange(a[1..], n), InRange(b, n));
      assert InRange(a, n) == head + InRange(a[1..], n);
    }
  }

  lemma {:induction false} InRangeKeeps(choice: seq<int>, n: nat)
    requires forall i :: 0 <= i < |choice| ==> 1 <= choice[i] <= n
    ensures InRange(choice, n) == choice
  {
    if choice != [] {
      InRangeKeeps(choice[1..], n);
    }
  }

  /** With no sessions no number is in range. */
  lemma {:induction false} InRangeNone(choice: seq<int>)
    ensures InRange(choice, 0) == []
  {
    if choice != [] {
      InRangeNone(choice[1..]);
    }
  }

  /** Selecting everything stops each listed session once, in listing
      order. */
  lemma StopAll(sessions: seq<Entry>, answer: string)
    ensures Stops(sessions, Selection(true, answer, |sessions|))
      == seq(|sessions|, i requires 0 <= i < |sessions| => sessions[i].id)
  {
    var all := Range(|sessions|);
    InRangeKeeps(all, |sessions|);
    StopsAt(sessions, all);
  }

  /** The decimal renderings of `ks`. */
  function Numerals(ks: seq<nat>): (r: seq<string>)
    ensures |r| == |ks| && forall k :: 0 <= k < |r| ==> AllDigits(r[k])
  {
    if ks == [] then [] else [NatToString(ks[0])] + Numerals(ks[1..])
  }

  /** The answer listing the numbers `ks` separated by commas. */
  function Answer(ks: seq<nat>): string
  {
    Join(Numerals(ks), ",")
  }

  predicate DigitsOrCommas(s: string)
  {
    forall i :: 0 <= i < |s| ==> IsDigit(s[i]) || s[i] == ','
  }

  /** Digit and comma text is unchanged by trimming and lower-casing. */
  lemma DigitsAndCommas(s: string)
    requires DigitsOrCommas(s)
    ensures Lower(Strip(s)) == s
  {
    assert NoEdgeSpace(s) by {
      if s != [] {
        DigitOrComma(s[0]);
        DigitOrComma(s[|s| - 1]);
      }
    }
    StripNoEdge(s);
    assert Lower(s) == s by {
      forall i | 0 <= i < |s|
        ensures !IsUpper(s[i])
      {
        DigitOrComma(s[i]);
      }
      LowerKeeps(s);
    }
  }

  /** A digit or a comma is neither white space nor a capital. */
  lemma DigitOrComma(c: char)
    requires IsDigit(c) || c == ','
    ensures !IsSpace(c) && !IsUpper(c)
  {
  }

  lemma {:induction false} JoinDigits(parts: seq<string>)
    requires forall k :: 0 <= k < |parts| ==> AllDigits(parts[k])
    ensures DigitsOrCommas(Join(parts, ","))
  {
    if |parts| >= 2 {
      JoinDigits(parts[1..]);
      var rest := Join(parts[1..], ",");
      var s := Join(parts, ",");
      assert s == parts[0] + "," + rest;
      forall i | 0 <= i < |s|
        ensures IsDigit(s[i]) || s[i] == ','
      {
        if i < |parts[0]| {
          assert s[i] == parts[0][i];
        } else if i == |parts[0]| {
          assert s[i] == ',';
        } else {
          assert s[i] == rest[i - |parts[0]| - 1];
        }
      }
    }
  }

  /** A numeral has no white space to strip. */
  lemma StripDigits(t: string)
    requires AllDigits(t)
    ensures Strip(t) == t
  {
    assert IsDigit(t[0]) && IsDigit(t[|t| - 1]);
    StripNoEdge(t);
  }

  lemma {:induction false} PicksOfNumbers(ks: seq<nat>)
    ensures Picks(Numerals(ks)) == ks
  {
    if ks != [] {
      var tokens := Numerals(ks);
      assert tokens[1..] == Numerals(ks[1..]);
      PicksOfNumbers(ks[1..]);
      StripDigits(tokens[0]);
      ParseNatToString(ks[0]);
    }
  }

  /** Digits and commas are none of the words that select everything. */
  lemma DigitsSelectNotAll(s: string)
    requires DigitsOrCommas(s)
    ensures !SelectsAll(s)
  {
    if s != [] {
      assert IsDigit(s[0]) || s[0] == ',';
      assert "a"[0] == 'a' && "all"[0] == 'a' && "*"[0] == '*';
    }
  }

  /** Typing the numbers `ks` separated by commas selects exactly `ks`, in
      order and with duplicates, whatever the number of sessions. */
  lemma SelectionOfAnswer(ks: seq<nat>, n: nat)
    requires ks != []
    ensures Selection(false, Answer(ks), n) == ks
  {
    var tokens := Numerals(ks);
    var s := Answer(ks);
    JoinDigits(tokens);
    DigitsAndCommas(s);
    DigitsSelectNotAll(s);
    assert Selection(false, s, n) == Picks(Split(s, ','));
    assert forall k :: 0 <= k < |tokens| ==> ',' !in tokens[k] by {
      forall k | 0 <= k < |tokens|
        ensures ',' !in tokens[k]
      {
        assert AllDigits(tokens[k]);
      }
    }
    SplitJoin(tokens, ',');
    PicksOfNumbers(ks);
  }

  /** The stop loop of `main`: a stop for each chosen number that names a
      listed session, in order. */
  method StopChosen(sessions: seq<Entry>, choice: seq<int>) returns (stopped: seq<Option<Value>>)
    ensures stopped == Stops(sessions, choice)
  {
    stopped := [];
    for i := 0 to |choice|
      invariant stopped == Stops(sessions, choice[..i])
    {
      var idx := choice[i];
      assert choice[..i + 1] == choice[..i] + [idx];
      StopsSnoc(sessions, choice[..i], idx);
      if 1 <= idx <= |sessions| {
        stopped := stopped + [sessions[idx - 1].id];
      }
    }
    assert choice[..|choice|] == choice;
  }

  /** `main` after the listing call: a listing failure ends the run;
      otherwise the sessions chosen by `--all` or the answer are stopped.
      No sessions means no stops. */
  method Run(data: Data, all: bool, answer: string) returns (r: Result<seq<Option<Value>>, string>)
    ensures ListSessions(data).Err? ==> r == Err(ListSessions(data).error)
    ensures ListSessions(data).Ok? ==>
      var sessions := ListSessions(data).value;
      r == Ok(Stops(sessions, Selection(all, answer, |sessions|)))
    ensures r.Ok? ==> forall k :: 0 <= k < |r.value| ==> Truthy(r.value[k])
  {
    var listed := ListSessions(data);
    if listed.Err? {
      return Err(listed.error);
    }
    var sessions := listed.value;
    var choice := Selection(all, answer, |sessions|);
    StopsLive(sessions, choice);
    if sessions == [] {
      InRangeNone(choice);
      return Ok([]);
    }
    var stopped := StopChosen(sessions, choice);
    return Ok(stopped);
  }
}
