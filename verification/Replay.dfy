/** Serve mode's session/load: the stored history is replayed as updates, pairing tool responses with their calls. */
module Replay {
  import opened Common

  /** A content part as the replay's switch sees it; id is "" where the history carries none. */
  datatype Part =
    | Text(text: string, thought: bool)
    | Call(id: string, name: string, args: string)
    | Response(id: string, name: string, result: Option<string>)
    | Inline(mime: string)
    | Empty

  /** parts is None for a turn without parsable content. */
  datatype Turn = Turn(number: int, user: bool, parts: Option<seq<Part>>)

  datatype Kind = Thought | UserMessage | AgentMessage

  datatype Update =
    | Chunk(kind: Kind, text: string)
    | Announced(id: string, name: string, args: string)
    | Completed(id: string, name: string, result: Option<string>)

  function Decimal(n: int): (s: string)
    ensures s != ""
    decreases if n < 0 then 1 else 0, if n < 0 then -n else n
  {
    if n < 0 then "-" + Decimal(-n)
    else if n < 10 then [('0' as int + n) as char]
    else Decimal(n / 10) + [('0' as int + n % 10) as char]
  }

  function GeneratedId(turn: int, part: nat): string {
    "replay-" + Decimal(turn) + "-" + Decimal(part)
  }

  function DigitsValue(s: string): int {
    if s == "" then 0 else 10 * DigitsValue(s[..|s| - 1]) + (s[|s| - 1] as int - '0' as int)
  }

  lemma {:induction false} DecimalDigits(n: nat)
    ensures DigitsValue(Decimal(n)) == n && '-' !in Decimal(n)
  {
    if n < 10 {
      assert DigitsValue([]) == 0 && Decimal(n)[..0] == [];
    } else {
      DecimalDigits(n / 10);
      assert Decimal(n)[..|Decimal(n)| - 1] == Decimal(n / 10);
    }
  }

  lemma DecimalInjective(m: int, n: int)
    requires Decimal(m) == Decimal(n)
    ensures m == n
  {
    DecimalDigits(if m < 0 then -m else m);
    DecimalDigits(if n < 0 then -n else n);
    assert m < 0 ==> Decimal(m)[0] == '-' && Decimal(m)[1..] == Decimal(-m);
    assert n < 0 ==> Decimal(n)[0] == '-' && Decimal(n)[1..] == Decimal(-n);
    assert m >= 0 ==> Decimal(m)[0] in Decimal(m);
    assert n >= 0 ==> Decimal(n)[0] in Decimal(n);
  }

  lemma {:induction false} SameTail(a: string, b: string, c: string, d: string)
    requires a + "-" + b == c + "-" + d && '-' !in b && '-' !in d
    ensures a == c && b == d
  {
    var all := a + "-" + b;
    assert all[|a|] == '-' && all[|c|] == '-';
    assert forall k :: |a| < k < |all| ==> all[k] == b[k - |a| - 1] && all[k] != '-';
    assert forall k :: |c| < k < |all| ==> all[k] == d[k - |c| - 1] && all[k] != '-';
    assert a == all[..|a|] && c == all[..|c|] && b == all[|a| + 1..] && d == all[|c| + 1..];
  }

  /** Ids made up for calls without one are different for different places in the history. */
  lemma {:induction false} GeneratedIdsDiffer(turn: int, part: nat, otherTurn: int, otherPart: nat)
    ensures GeneratedId(turn, part) == GeneratedId(otherTurn, otherPart) <==> turn == otherTurn && part == otherPart
  {
    if GeneratedId(turn, part) == GeneratedId(otherTurn, otherPart) {
      DecimalDigits(part);
      DecimalDigits(otherPart);
      hide Decimal;
      var a, c := "replay-" + Decimal(turn), "replay-" + Decimal(otherTurn);
      SameTail(a, Decimal(part), c, Decimal(otherPart));
      assert a[7..] == Decimal(turn) && c[7..] == Decimal(otherTurn);
      DecimalInjective(turn, otherTurn);
      DecimalInjective(part, otherPart);
    }
  }

  // ----- the replay as a function of the history -----

  /** A part in place: its turn's number and side, and its position there. */
  datatype Item = Item(number: int, user: bool, index: nat, part: Part)

  function Items(turn: Turn, n: nat): seq<Item>
    requires turn.parts.Some? && n <= |turn.parts.value|
  {
    seq(n, i requires 0 <= i < n => Item(turn.number, turn.user, i, turn.parts.value[i]))
  }

  function Flatten(turns: seq<Turn>): seq<Item> {
    if turns == [] then []
    else
      var last := turns[|turns| - 1];
      Flatten(turns[..|turns| - 1]) + (if last.parts.Some? then Items(last, |last.parts.value|) else [])
  }

  datatype State = State(byId: map<string, string>, byName: map<string, seq<string>>, sent: seq<Update>)

  const START := State(map[], map[], [])

  function Queue(byName: map<string, seq<string>>, name: string): seq<string> {
    if name in byName then byName[name] else []
  }

  function SpokenBy(user: bool): Kind {
    if user then UserMessage else AgentMessage
  }

  function CallId(it: Item): (id: string)
    requires it.part.Call?
    ensures id != ""
  {
    if it.part.id == "" then GeneratedId(it.number, it.index) else it.part.id
  }

  /** The call a response is attached to, "" if none. */
  function Target(s: State, r: Part): string
    requires r.Response?
  {
    if r.id != "" then (if r.id in s.byId then s.byId[r.id] else "")
    else if Queue(s.byName, r.name) != [] then Queue(s.byName, r.name)[0]
    else ""
  }

  /** The update a part becomes, if any. */
  function Shown(s: State, it: Item): Option<Update> {
    match it.part
    case Text(text, thought) =>
      if text == "" then None else Some(Chunk(if thought then Thought else SpokenBy(it.user), text))
    case Call(_, name, args) => Some(Announced(CallId(it), name, args))
    case Response(_, name, result) =>
      var id := Target(s, it.part);
      if id != "" then Some(Completed(id, name, result))
      else if result.Some? then Some(Chunk(AgentMessage, result.value))
      else None
    case Inline(mime) => Some(Chunk(SpokenBy(it.user), "[inline data: " + mime + "]"))
    case Empty => None
  }

  function Step(s: State, it: Item): State {
    var sent := s.sent + (if Shown(s, it).Some? then [Shown(s, it).value] else []);
    match it.part
    case Call(_, name, _) =>
      State(s.byId[CallId(it) := CallId(it)], s.byName[name := Queue(s.byName, name) + [CallId(it)]], sent)
    case Response(id, name, _) =>
      if id != "" then s.(byId := s.byId - {id}, sent := sent)
      else if Queue(s.byName, name) != [] then s.(byName := s.byName[name := Queue(s.byName, name)[1..]], sent := sent)
      else s.(sent := sent)
    case _ => s.(sent := sent)
  }

  function Run(items: seq<Item>): State {
    if items == [] then START else Step(Run(items[..|items| - 1]), items[|items| - 1])
  }

  lemma RunSnoc(items: seq<Item>, it: Item)
    ensures Run(items + [it]) == Step(Run(items), it)
  {
    assert (items + [it])[..|items|] == items;
  }

  lemma {:induction false} SentGrows(items: seq<Item>, more: seq<Item>)
    ensures Run(items).sent <= Run(items + more).sent
    decreases |more|
  {
    if more == [] {
      assert items + more == items;
    } else {
      var n := |more| - 1;
      hide Run, Shown;
      SentGrows(items, more[..n]);
      assert items + more == (items + more[..n]) + [more[n]];
      RunSnoc(items + more[..n], more[n]);
    }
  }

  lemma {:induction false} FlattenPrefix(turns: seq<Turn>, t: nat, n: nat) returns (more: seq<Item>)
    requires t < |turns| && turns[t].parts.Some? && n <= |turns[t].parts.value|
    ensures Flatten(turns) == Flatten(turns[..t]) + Items(turns[t], n) + more
    decreases |turns|
  {
    var last := |turns| - 1;
    if t == last {
      more := Items(turns[t], |turns[t].parts.value|)[n..];
      assert Items(turns[t], |turns[t].parts.value|) == Items(turns[t], n) + more;
    } else {
      more := FlattenPrefix(turns[..last], t, n);
      assert turns[..last][..t] == turns[..t];
      more := more + if turns[last].parts.Some? then Items(turns[last], |turns[last].parts.value|) else [];
    }
  }

  // ----- Replay -----

  function Cut(sent: seq<Update>, accepts: nat): (cut: seq<Update>)
    ensures cut <= sent && |cut| <= accepts && (|cut| < |sent| ==> |cut| == accepts)
  {
    if |sent| <= accepts then sent else sent[..accepts]
  }

  /** The replay's switch over one part: pairs it, and says what to emit. */
  method ReplayPart(it: Item, byId: map<string, string>, byName: map<string, seq<string>>)
    returns (update: Option<Update>, nextById: map<string, string>, nextByName: map<string, seq<string>>)
    ensures update == Shown(State(byId, byName, []), it)
    ensures var next := Step(State(byId, byName, []), it); nextById == next.byId && nextByName == next.byName
  {
    hide Decimal, GeneratedId;
    update, nextById, nextByName := None, byId, byName;
    match it.part
    case Text(text, thought) =>
      if text != "" {
        update := Some(Chunk(if thought then Thought else SpokenBy(it.user), text));
      }
    case Call(given, name, args) =>
      var id := given;
      if id == "" {
        id := GeneratedId(it.number, it.index);
      }
      nextById := byId[id := id];
      nextByName := byName[name := Queue(byName, name) + [id]];
      update := Some(Announced(id, name, args));
    case Response(given, name, result) =>
      var id := "";
      if given != "" {
        if given in byId {
          id := byId[given];
        }
        nextById := byId - {given};
      } else if Queue(byName, name) != [] {
        id := Queue(byName, name)[0];
        nextByName := byName[name := Queue(byName, name)[1..]];
      }
      if id != "" {
        update := Some(Completed(id, name, result));
      } else if result.Some? {
        update := Some(Chunk(AgentMessage, result.value));
      }
    case Inline(mime) =>
      update := Some(Chunk(SpokenBy(it.user), "[inline data: " + mime + "]"));
    case Empty =>
  }

  /** What was sent before has no bearing on how a part is paired and shown. */
  lemma {:induction false} StepIgnoresSent(byId: map<string, string>, byName: map<string, seq<string>>, sent: seq<Update>, it: Item)
    ensures var update, next := Shown(State(byId, byName, []), it), Step(State(byId, byName, []), it);
      Step(State(byId, byName, sent), it) ==
      State(next.byId, next.byName, if update.Some? then sent + [update.value] else sent)
  {
    hide Decimal, GeneratedId;
    assert sent + [] == sent;
  }

  lemma ItemsSnoc(before: seq<Item>, turn: Turn, i: nat)
    requires turn.parts.Some? && i < |turn.parts.value|
    ensures before + Items(turn, i + 1) == (before + Items(turn, i)) + [Item(turn.number, turn.user, i, turn.parts.value[i])]
  {
  }

  lemma {:induction false} CutShort(turns: seq<Turn>, t: nat, n: nat, sent: seq<Update>, update: Update)
    requires t < |turns| && turns[t].parts.Some? && n <= |turns[t].parts.value|
    requires Run(Upto(turns, t, n)).sent == sent + [update]
    ensures |Run(Flatten(turns)).sent| > |sent| && sent == Cut(Run(Flatten(turns)).sent, |sent|)
  {
    hide Run, Flatten, Items;
    var more := FlattenPrefix(turns, t, n);
    SentGrows(Flatten(turns[..t]) + Items(turns[t], n), more);
  }

  /** The items of the first t turns and of the first n parts of the next. */
  ghost function Upto(turns: seq<Turn>, t: nat, n: nat): seq<Item>
    requires t < |turns| && turns[t].parts.Some? && n <= |turns[t].parts.value|
  {
    Flatten(turns[..t]) + Items(turns[t], n)
  }

  lemma UptoTurn(turns: seq<Turn>, t: nat)
    requires t < |turns|
    ensures match turns[t].parts
            case None => Flatten(turns[..t + 1]) == Flatten(turns[..t])
            case Some(parts) =>
              Upto(turns, t, 0) == Flatten(turns[..t]) && Upto(turns, t, |parts|) == Flatten(turns[..t + 1])
  {
    assert turns[..t + 1][..t] == turns[..t];
  }

  lemma UptoPart(turns: seq<Turn>, t: nat, i: nat)
    requires t < |turns| && turns[t].parts.Some? && i < |turns[t].parts.value|
    ensures Run(Upto(turns, t, i + 1)) ==
            Step(Run(Upto(turns, t, i)), Item(turns[t].number, turns[t].user, i, turns[t].parts.value[i]))
  {
    hide Run, Flatten;
    ItemsSnoc(Flatten(turns[..t]), turns[t], i);
    RunSnoc(Upto(turns, t, i), Item(turns[t].number, turns[t].user, i, turns[t].parts.value[i]));
  }

  /** accepts is how many updates the connection takes before a write fails, which ends the replay with its error. */
  method ReplayTurns(turns: seq<Turn>, accepts: nat) returns (sent: seq<Update>, ok: bool)
    ensures sent == Cut(Run(Flatten(turns)).sent, accepts)
    ensures ok <==> |Run(Flatten(turns)).sent| <= accepts
  {
    hide Step, Shown, Flatten, Upto;
    var byId: map<string, string>, byName: map<string, seq<string>> := map[], map[];
    sent, ok := [], true;
    StartOfRun(turns);
    hide Run, Cut;
    for t := 0 to |turns|
      invariant ok && |sent| <= accepts
      invariant Run(Flatten(turns[..t])) == State(byId, byName, sent)
    {
      UptoTurn(turns, t);
      var turn := turns[t];
      if turn.parts.None? {
        continue;
      }
      for i := 0 to |turn.parts.value|
        invariant ok && |sent| <= accepts
        invariant Run(Upto(turns, t, i)) == State(byId, byName, sent)
      {
        var it := Item(turn.number, turn.user, i, turn.parts.value[i]);
        UptoPart(turns, t, i);
        StepIgnoresSent(byId, byName, sent, it);
        var update: Option<Update>;
        update, byId, byName := ReplayPart(it, byId, byName);
        if update.Some? {
          if |sent| == accepts {
            CutShort(turns, t, i + 1, sent, update.value);
            ok := false;
            return;
          }
          sent := sent + [update.value];
        }
      }
    }
    assert turns[..|turns|] == turns;
    assert sent == Cut(sent, accepts) by { WholeFits(sent, accepts); }
  }

  lemma StartOfRun(turns: seq<Turn>)
    ensures Run(Flatten(turns[..0])) == START
  {
  }

  lemma WholeFits(sent: seq<Update>, accepts: nat)
    requires |sent| <= accepts
    ensures Cut(sent, accepts) == sent
  {
  }

  // ----- pairing -----

  predicate IsAnnouncement(u: Update, id: string) {
    u.Announced? && u.id == id
  }

  ghost predicate Known(sent: seq<Update>, id: string) {
    exists j :: 0 <= j < |sent| && IsAnnouncement(sent[j], id)
  }

  /** Everything waiting to be paired was announced. */
  ghost predicate OpenKnown(s: State) {
    && (forall id :: id in s.byId ==> s.byId[id] == id != "" && Known(s.sent, id))
    && (forall name :: name in s.byName ==> forall k :: 0 <= k < |s.byName[name]| ==> Known(s.sent, s.byName[name][k]))
    && (forall name :: name in s.byName ==> forall k :: 0 <= k < |s.byName[name]| ==> s.byName[name][k] != "")
  }

  ghost predicate CompletesKnown(sent: seq<Update>) {
    forall k :: 0 <= k < |sent| && sent[k].Completed? ==> Known(sent[..k], sent[k].id)
  }

  lemma KnownGrows(sent: seq<Update>, u: Update)
    ensures forall id :: Known(sent, id) ==> Known(sent + [u], id)
    ensures u.Announced? ==> Known(sent + [u], u.id)
  {
    forall id | Known(sent, id)
      ensures Known(sent + [u], id)
    {
      var j :| 0 <= j < |sent| && IsAnnouncement(sent[j], id);
      assert IsAnnouncement((sent + [u])[j], id);
    }
    assert u.Announced? ==> IsAnnouncement((sent + [u])[|sent|], u.id);
  }

  lemma CompletesKnownSnoc(sent: seq<Update>, u: Update)
    requires CompletesKnown(sent) && (u.Completed? ==> Known(sent, u.id))
    ensures CompletesKnown(sent + [u])
  {
    hide Known;
    forall k | 0 <= k < |sent + [u]| && (sent + [u])[k].Completed?
      ensures Known((sent + [u])[..k], (sent + [u])[k].id)
    {
      assert (sent + [u])[..k] == sent[..k] || k == |sent|;
      assert k == |sent| ==> (sent + [u])[..k] == sent;
    }
  }

  lemma StepKnown(s: State, it: Item)
    requires OpenKnown(s) && CompletesKnown(s.sent)
    ensures OpenKnown(Step(s, it)) && CompletesKnown(Step(s, it).sent)
  {
    hide Known, CompletesKnown, Decimal, GeneratedId;
    if Shown(s, it).Some? {
      KnownGrows(s.sent, Shown(s, it).value);
      CompletesKnownSnoc(s.sent, Shown(s, it).value);
    } else {
      assert Step(s, it).sent == s.sent;
    }
  }

  lemma {:induction false} RunKnown(items: seq<Item>)
    ensures OpenKnown(Run(items)) && CompletesKnown(Run(items).sent)
  {
    if items != [] {
      hide OpenKnown, CompletesKnown, Step;
      RunKnown(items[..|items| - 1]);
      StepKnown(Run(items[..|items| - 1]), items[|items| - 1]);
    }
  }

  /** Whatever a history holds, every completion names a call announced before it in the same replay. */
  lemma CompletionsAreAnnounced(turns: seq<Turn>, accepts: nat, k: nat)
    requires var sent := Cut(Run(Flatten(turns)).sent, accepts); k < |sent| && sent[k].Completed?
    ensures var sent := Cut(Run(Flatten(turns)).sent, accepts);
      exists j :: 0 <= j < k && IsAnnouncement(sent[j], sent[k].id)
  {
    hide Run, Flatten;
    RunKnown(Flatten(turns));
    var all := Run(Flatten(turns)).sent;
    var j :| 0 <= j < |all[..k]| && IsAnnouncement(all[..k][j], all[k].id);
    assert IsAnnouncement(Cut(all, accepts)[j], all[k].id);
  }

  // ----- histories whose responses carry no ids -----

  /** The ids announced, and completed, under a name, in order. */
  function AnnouncedAs(sent: seq<Update>, name: string): seq<string> {
    if sent == [] then []
    else
      var last := sent[|sent| - 1];
      AnnouncedAs(sent[..|sent| - 1], name) + (if last.Announced? && last.name == name then [last.id] else [])
  }

  function CompletedAs(sent: seq<Update>, name: string): seq<string> {
    if sent == [] then []
    else
      var last := sent[|sent| - 1];
      CompletedAs(sent[..|sent| - 1], name) + (if last.Completed? && last.name == name then [last.id] else [])
  }

  ghost predicate NoResponseIds(items: seq<Item>) {
    forall k :: 0 <= k < |items| && items[k].part.Response? ==> items[k].part.id == ""
  }

  ghost predicate AllResponseIds(items: seq<Item>) {
    forall k :: 0 <= k < |items| && items[k].part.Response? ==> items[k].part.id != ""
  }

  lemma AsSnoc(sent: seq<Update>, u: Update, name: string)
    ensures AnnouncedAs(sent + [u], name) ==
            AnnouncedAs(sent, name) + (if u.Announced? && u.name == name then [u.id] else [])
    ensures CompletedAs(sent + [u], name) ==
            CompletedAs(sent, name) + (if u.Completed? && u.name == name then [u.id] else [])
  {
    assert (sent + [u])[..|sent|] == sent;
  }

  ghost predicate PairedInOrder(s: State, name: string) {
    AnnouncedAs(s.sent, name) == CompletedAs(s.sent, name) + Queue(s.byName, name)
  }

  lemma StepPairs(s: State, it: Item, name: string)
    requires OpenKnown(s) && PairedInOrder(s, name)
    requires it.part.Response? ==> it.part.id == ""
    ensures PairedInOrder(Step(s, it), name)
  {
    hide AnnouncedAs, CompletedAs, Known, Decimal, GeneratedId;
    if Shown(s, it).Some? {
      AsSnoc(s.sent, Shown(s, it).value, name);
    } else {
      assert s.sent + [] == s.sent;
    }
    var q := Queue(s.byName, name);
    var next := Step(s, it);
    if it.part.Call? && it.part.name == name {
      assert Queue(next.byName, name) == q + [CallId(it)];
    } else if it.part.Response? && it.part.name == name && q != [] {
      assert Target(s, it.part) == q[0] != "";
      assert q == [q[0]] + q[1..];
    } else {
      assert Queue(next.byName, name) == q;
    }
  }

  /**
   Without response ids, the calls of a name are completed first in, first out: what was announced under the name is
   what was completed under it followed by what still waits. So the j-th completion takes the j-th call, and a response
   is shown as plain text only when no call of its name waits.
   */
  lemma {:induction false} NamesPairInOrder(items: seq<Item>, name: string)
    requires NoResponseIds(items)
    ensures PairedInOrder(Run(items), name)
  {
    if items != [] {
      var n := |items| - 1;
      NamesPairInOrder(items[..n], name);
      RunKnown(items[..n]);
      hide PairedInOrder, Step, OpenKnown;
      assert items[n].part.Response? ==> items[n].part.id == "";
      StepPairs(Run(items[..n]), items[n], name);
    }
  }

  // ----- histories whose responses all carry ids -----

  /** The last update naming the call is its announcement: it has not been completed since. */
  predicate Pending(sent: seq<Update>, id: string) {
    if sent == [] then false
    else
      var last := sent[|sent| - 1];
      if last.Announced? && last.id == id then true
      else if last.Completed? && last.id == id then false
      else Pending(sent[..|sent| - 1], id)
  }

  function Announcements(sent: seq<Update>, id: string): nat {
    if sent == [] then 0
    else
      var last := sent[|sent| - 1];
      Announcements(sent[..|sent| - 1], id) + (if last.Announced? && last.id == id then 1 else 0)
  }

  function Completions(sent: seq<Update>, id: string): nat {
    if sent == [] then 0
    else
      var last := sent[|sent| - 1];
      Completions(sent[..|sent| - 1], id) + (if last.Completed? && last.id == id then 1 else 0)
  }

  /** No update completes a call that is not pending. */
  ghost predicate CompletesPending(sent: seq<Update>) {
    forall k :: 0 <= k < |sent| && sent[k].Completed? ==> Pending(sent[..k], sent[k].id)
  }

  lemma PendingSnoc(sent: seq<Update>, u: Update, id: string)
    ensures Pending(sent + [u], id) ==
            if u.Announced? && u.id == id then true else if u.Completed? && u.id == id then false else Pending(sent, id)
  {
    assert (sent + [u])[..|sent|] == sent;
  }

  lemma CompletesPendingSnoc(sent: seq<Update>, u: Update)
    requires CompletesPending(sent) && (u.Completed? ==> Pending(sent, u.id))
    ensures CompletesPending(sent + [u])
  {
    hide Pending;
    forall k | 0 <= k < |sent + [u]| && (sent + [u])[k].Completed?
      ensures Pending((sent + [u])[..k], (sent + [u])[k].id)
    {
      assert (sent + [u])[..k] == sent[..k] || k == |sent|;
      assert k == |sent| ==> (sent + [u])[..k] == sent;
    }
  }

  /** With ids throughout, a call is open by id exactly while it is pending, and only pending calls are completed. */
  lemma {:induction false} IdsCompletePending(items: seq<Item>)
    requires AllResponseIds(items)
    ensures var s := Run(items); CompletesPending(s.sent) && forall id :: id in s.byId <==> Pending(s.sent, id)
  {
    if items != [] {
      var n := |items| - 1;
      IdsCompletePending(items[..n]);
      RunKnown(items[..n]);
      var s := Run(items[..n]);
      var it := items[n];
      assert it.part.Response? ==> it.part.id != "";
      hide Run, Pending, CompletesPending, Known, CompletesKnown, Decimal, GeneratedId;
      assert Run(items) == Step(s, it) by { RunSnoc(items[..n], it); assert items[..n] + [it] == items; }
      if Shown(s, it).Some? {
        CompletesPendingSnoc(s.sent, Shown(s, it).value);
        forall id
          ensures id in Step(s, it).byId <==> Pending(Step(s, it).sent, id)
        {
          PendingSnoc(s.sent, Shown(s, it).value, id);
        }
      } else {
        assert Step(s, it).sent == s.sent;
      }
    }
  }

  lemma {:induction false} PendingBoundsCompletions(sent: seq<Update>, id: string)
    requires CompletesPending(sent)
    ensures Completions(sent, id) + (if Pending(sent, id) then 1 else 0) <= Announcements(sent, id)
  {
    if sent != [] {
      var n := |sent| - 1;
      forall k | 0 <= k < n && sent[..n][k].Completed?
        ensures Pending(sent[..n][..k], sent[..n][k].id)
      {
        assert sent[..n][..k] == sent[..k];
      }
      PendingBoundsCompletions(sent[..n], id);
    }
  }

  /** With ids throughout, at no point of the replay, cut short or not, has a call more completions than announcements. */
  lemma IdsNeverOvercomplete(items: seq<Item>, k: nat, id: string)
    requires AllResponseIds(items) && k <= |Run(items).sent|
    ensures Completions(Run(items).sent[..k], id) <= Announcements(Run(items).sent[..k], id)
  {
    hide Run, Pending, Completions, Announcements;
    IdsCompletePending(items);
    var sent := Run(items).sent;
    forall j | 0 <= j < k && sent[..k][j].Completed?
      ensures Pending(sent[..k][..j], sent[..k][j].id)
    {
      assert sent[..k][..j] == sent[..j];
    }
    PendingBoundsCompletions(sent[..k], id);
  }

  // ----- any history: how often each call is completed -----

  predicate Calls(it: Item, id: string) {
    it.part.Call? && CallId(it) == id
  }

  predicate AnswersById(it: Item, id: string) {
    it.part.Response? && it.part.id == id != ""
  }

  predicate AnswersByName(it: Item, name: string) {
    it.part.Response? && it.part.id == "" && it.part.name == name
  }

  ghost predicate Called(items: seq<Item>, id: string) {
    exists i :: 0 <= i < |items| && Calls(items[i], id)
  }

  ghost predicate DistinctCalls(items: seq<Item>) {
    forall i, j :: 0 <= i < j < |items| && items[i].part.Call? ==> !Calls(items[j], CallId(items[i]))
  }

  /** A response carrying the call's id comes after the call. */
  ghost predicate MetById(items: seq<Item>, id: string) {
    exists i, j :: 0 <= i < j < |items| && Calls(items[i], id) && AnswersById(items[j], id)
  }

  /** The ids called under a name, in order. */
  function CallsNamed(items: seq<Item>, name: string): seq<string> {
    if items == [] then []
    else
      var it := items[|items| - 1];
      CallsNamed(items[..|items| - 1], name) + (if it.part.Call? && it.part.name == name then [CallId(it)] else [])
  }

  /** How many responses to the name without an id came while one of its calls was still to be met: a count only. */
  function Taken(items: seq<Item>, name: string): (n: nat)
    ensures n <= |CallsNamed(items, name)|
  {
    if items == [] then 0
    else
      var before := items[..|items| - 1];
      Taken(before, name) +
      (if AnswersByName(items[|items| - 1], name) && Taken(before, name) < |CallsNamed(before, name)| then 1 else 0)
  }

  ghost predicate TakenAt(items: seq<Item>, name: string, k: nat, id: string) {
    k < Taken(items, name) && CallsNamed(items, name)[k] == id
  }

  /** The call is among those first calls of its name that as many responses without ids met. */
  ghost predicate MetByName(items: seq<Item>, id: string) {
    exists name: string, k: nat :: TakenAt(items, name, k, id)
  }

  lemma CalledSnoc(items: seq<Item>, it: Item, id: string)
    ensures Called(items + [it], id) <==> Called(items, id) || Calls(it, id)
  {
    hide Calls;
    var longer := items + [it];
    if Called(items, id) {
      var i :| 0 <= i < |items| && Calls(items[i], id);
      assert Calls(longer[i], id);
    }
    assert Calls(it, id) ==> Calls(longer[|items|], id);
  }

  lemma MetByIdSnoc(items: seq<Item>, it: Item, id: string)
    ensures MetById(items + [it], id) <==> MetById(items, id) || (AnswersById(it, id) && Called(items, id))
  {
    hide Calls, AnswersById;
    var longer := items + [it];
    if MetById(items, id) {
      var i, j :| 0 <= i < j < |items| && Calls(items[i], id) && AnswersById(items[j], id);
      assert Calls(longer[i], id) && AnswersById(longer[j], id);
    }
    if AnswersById(it, id) && Called(items, id) {
      var i :| 0 <= i < |items| && Calls(items[i], id);
      assert Calls(longer[i], id) && AnswersById(longer[|items|], id);
    }
  }

  lemma NamedSnoc(items: seq<Item>, it: Item, name: string)
    ensures CallsNamed(items + [it], name) ==
            CallsNamed(items, name) + (if it.part.Call? && it.part.name == name then [CallId(it)] else [])
    ensures Taken(items + [it], name) ==
            Taken(items, name) +
            (if AnswersByName(it, name) && Taken(items, name) < |CallsNamed(items, name)| then 1 else 0)
  {
    assert (items + [it])[..|items|] == items;
  }

  ghost predicate MeetsByName(items: seq<Item>, it: Item, id: string) {
    && it.part.Response? && it.part.id == ""
    && var calls, n := CallsNamed(items, it.part.name), Taken(items, it.part.name); n < |calls| && calls[n] == id
  }

  lemma MetByNameSnoc(items: seq<Item>, it: Item, id: string)
    ensures MetByName(items + [it], id) <==> (MetByName(items, id) || MeetsByName(items, it, id))
  {
    hide CallsNamed, Taken;
    var longer := items + [it];
    if MetByName(items, id) {
      var name: string, k: nat :| TakenAt(items, name, k, id);
      NamedSnoc(items, it, name);
      assert TakenAt(longer, name, k, id);
    }
    if it.part.Response? {
      NamedSnoc(items, it, it.part.name);
      var n := Taken(items, it.part.name);
      assert it.part.id == "" && n < |CallsNamed(items, it.part.name)| && CallsNamed(items, it.part.name)[n] == id ==>
        TakenAt(longer, it.part.name, n, id);
    }
    if MetByName(longer, id) {
      var name: string, k: nat :| TakenAt(longer, name, k, id);
      NamedSnoc(items, it, name);
      assert k < Taken(items, name) ==> TakenAt(items, name, k, id);
    }
  }

  /** A name's queue holds its calls but for those taken from the front, whatever responses by id do. */
  lemma {:induction false} QueueIsRest(items: seq<Item>, name: string)
    ensures Queue(Run(items).byName, name) == CallsNamed(items, name)[Taken(items, name)..]
  {
    if items != [] {
      var front, it := items[..|items| - 1], items[|items| - 1];
      assert front + [it] == items;
      QueueIsRest(front, name);
      RunSnoc(front, it);
      NamedSnoc(front, it, name);
      hide Run, CallsNamed, Taken, Shown, GeneratedId;
    }
  }

  lemma {:induction false} NamedAreCalled(items: seq<Item>, name: string, k: nat)
    requires k < |CallsNamed(items, name)|
    ensures Called(items, CallsNamed(items, name)[k])
  {
    var front, it := items[..|items| - 1], items[|items| - 1];
    assert front + [it] == items;
    CalledSnoc(front, it, CallsNamed(items, name)[k]);
    if k < |CallsNamed(front, name)| {
      NamedAreCalled(front, name, k);
    }
  }

  lemma DistinctFront(items: seq<Item>, it: Item)
    requires DistinctCalls(items + [it])
    ensures DistinctCalls(items) && (it.part.Call? ==> !Called(items, CallId(it)))
  {
    var longer := items + [it];
    forall i, j | 0 <= i < j < |items| && items[i].part.Call?
      ensures !Calls(items[j], CallId(items[i]))
    {
      assert longer[i] == items[i] && longer[j] == items[j];
    }
    if it.part.Call? && Called(items, CallId(it)) {
      var i :| 0 <= i < |items| && Calls(items[i], CallId(it));
      assert longer[i] == items[i] && Calls(longer[|items|], CallId(longer[i]));
    }
  }

  /** Distinct calls have one place each among the calls of all names. */
  lemma {:induction false} OnePlaceEach(items: seq<Item>, name: string, k: nat, other: string, m: nat)
    requires DistinctCalls(items)
    requires k < |CallsNamed(items, name)| && m < |CallsNamed(items, other)|
    requires CallsNamed(items, name)[k] == CallsNamed(items, other)[m]
    ensures name == other && k == m
  {
    var front, it := items[..|items| - 1], items[|items| - 1];
    assert front + [it] == items;
    DistinctFront(front, it);
    NamedSnoc(front, it, name);
    NamedSnoc(front, it, other);
    hide DistinctCalls, CallsNamed, Called, GeneratedId;
    if k < |CallsNamed(front, name)| {
      NamedAreCalled(front, name, k);
    }
    if m < |CallsNamed(front, other)| {
      NamedAreCalled(front, other, m);
    }
    if k < |CallsNamed(front, name)| && m < |CallsNamed(front, other)| {
      OnePlaceEach(front, name, k, other, m);
    }
  }

  lemma MetByIdIsCalled(items: seq<Item>, id: string)
    ensures MetById(items, id) ==> Called(items, id)
  {
  }

  lemma CompletionsSnoc(sent: seq<Update>, u: Update, id: string)
    ensures Completions(sent + [u], id) == Completions(sent, id) + (if u.Completed? && u.id == id then 1 else 0)
  {
    assert (sent + [u])[..|sent|] == sent;
  }

  function Count(met: bool): nat {
    if met then 1 else 0
  }

  lemma NotMetYet(items: seq<Item>, it: Item, id: string)
    requires DistinctCalls(items) && MeetsByName(items, it, id)
    ensures !MetByName(items, id)
  {
    hide DistinctCalls, CallsNamed, Taken;
    forall name: string, k: nat
      ensures !TakenAt(items, name, k, id)
    {
      if TakenAt(items, name, k, id) {
        OnePlaceEach(items, name, k, it.part.name, Taken(items, it.part.name));
      }
    }
  }

  predicate CompletesNow(s: State, it: Item, id: string) {
    Shown(s, it).Some? && Shown(s, it).value.Completed? && Shown(s, it).value.id == id
  }

  lemma StepCompletions(s: State, it: Item, id: string)
    ensures Completions(Step(s, it).sent, id) == Completions(s.sent, id) + Count(CompletesNow(s, it, id))
  {
    hide Completions, GeneratedId;
    if Shown(s, it).Some? {
      CompletionsSnoc(s.sent, Shown(s, it).value, id);
    } else {
      assert s.sent + [] == s.sent;
    }
  }

  /** The last part to name the call, by announcing it or by answering its id, announced it. */
  predicate OpenIn(items: seq<Item>, id: string) {
    if items == [] then false
    else if Calls(items[|items| - 1], id) then true
    else if AnswersById(items[|items| - 1], id) then false
    else OpenIn(items[..|items| - 1], id)
  }

  /** Responses carrying the id, each counted if the call was announced since the last such response. */
  function IdHits(items: seq<Item>, id: string): nat {
    if items == [] then 0
    else
      var front := items[..|items| - 1];
      IdHits(front, id) + Count(AnswersById(items[|items| - 1], id) && OpenIn(front, id))
  }

  /** Responses without an id, each counted if the first call of its name not yet taken is this one. */
  ghost function NameHits(items: seq<Item>, id: string): nat {
    if items == [] then 0
    else NameHits(items[..|items| - 1], id) + Count(MeetsByName(items[..|items| - 1], items[|items| - 1], id))
  }

  function CallCount(items: seq<Item>, id: string): nat {
    if items == [] then 0 else CallCount(items[..|items| - 1], id) + Count(Calls(items[|items| - 1], id))
  }

  /** A call is open by id from an announcement to the next response carrying its id. */
  lemma {:induction false} OpenById(items: seq<Item>, id: string)
    ensures id in Run(items).byId <==> OpenIn(items, id)
  {
    if items != [] {
      var front, it := items[..|items| - 1], items[|items| - 1];
      OpenById(front, id);
      RunKnown(front);
      assert Run(items) == Step(Run(front), it);
      assert OpenIn(items, id) == if Calls(it, id) then true else if AnswersById(it, id) then false else OpenIn(front, id);
      hide Run, OpenIn, Shown, GeneratedId, Known, CompletesKnown;
    }
  }

  lemma CompletesNowIff(items: seq<Item>, it: Item, id: string)
    ensures CompletesNow(Run(items), it, id) <==> (AnswersById(it, id) && OpenIn(items, id)) || MeetsByName(items, it, id)
  {
    hide Run, OpenIn, CallsNamed, Taken, Known, CompletesKnown, GeneratedId;
    RunKnown(items);
    if it.part.Response? {
      OpenById(items, it.part.id);
      QueueIsRest(items, it.part.name);
    }
  }

  lemma StepAnnouncements(s: State, it: Item, id: string)
    ensures Announcements(Step(s, it).sent, id) == Announcements(s.sent, id) + Count(Calls(it, id))
  {
    hide Announcements, GeneratedId;
    if Shown(s, it).Some? {
      AnnouncementsSnoc(s.sent, Shown(s, it).value, id);
    } else {
      assert s.sent + [] == s.sent;
    }
  }

  lemma AnnouncementsSnoc(sent: seq<Update>, u: Update, id: string)
    ensures Announcements(sent + [u], id) == Announcements(sent, id) + (if u.Announced? && u.id == id then 1 else 0)
  {
    assert (sent + [u])[..|sent|] == sent;
  }

  /**
   For every history, however its responses mix and its ids repeat: a call id is announced as often as it is called, and
   completed once for each response that carries it while it is open and once for each that takes it from its name.
   */
  lemma {:induction false} CompletionsExact(items: seq<Item>, id: string)
    ensures Announcements(Run(items).sent, id) == CallCount(items, id)
    ensures Completions(Run(items).sent, id) == IdHits(items, id) + NameHits(items, id)
  {
    if items != [] {
      hide Step, Completions, Announcements, CompletesNow, OpenIn, MeetsByName, Calls, AnswersById;
      var front, it := items[..|items| - 1], items[|items| - 1];
      CompletionsExact(front, id);
      StepCompletions(Run(front), it, id);
      StepAnnouncements(Run(front), it, id);
      CompletesNowIff(front, it, id);
      NotBothWays(front, it, id);
    }
  }

  lemma NotBothWays(items: seq<Item>, it: Item, id: string)
    ensures !(AnswersById(it, id) && MeetsByName(items, it, id))
  {
  }

  /** So no call is completed more often than announced exactly when none is met more often, both ways together, than called. */
  lemma SingleCompletionIff(turns: seq<Turn>)
    ensures var items := Flatten(turns);
      (forall id :: Completions(Run(items).sent, id) <= Announcements(Run(items).sent, id)) <==>
      (forall id :: IdHits(items, id) + NameHits(items, id) <= CallCount(items, id))
  {
    hide Run, Flatten, Completions, Announcements, IdHits, NameHits, CallCount;
    var items := Flatten(turns);
    if id :| Completions(Run(items).sent, id) > Announcements(Run(items).sent, id) {
      CompletionsExact(items, id);
      assert IdHits(items, id) + NameHits(items, id) > CallCount(items, id);
    } else {
      forall id
        ensures IdHits(items, id) + NameHits(items, id) <= CallCount(items, id)
      {
        CompletionsExact(items, id);
        assert Completions(Run(items).sent, id) <= Announcements(Run(items).sent, id);
      }
    }
  }

  // ----- distinct calls -----

  lemma {:induction false} DistinctHits(items: seq<Item>, id: string)
    requires DistinctCalls(items)
    ensures OpenIn(items, id) <==> Called(items, id) && !MetById(items, id)
    ensures IdHits(items, id) == Count(MetById(items, id))
    ensures NameHits(items, id) == Count(MetByName(items, id))
  {
    if items != [] {
      hide DistinctCalls, Called, MetById, MetByName, MeetsByName, Calls, AnswersById;
      var front, it := items[..|items| - 1], items[|items| - 1];
      assert front + [it] == items;
      DistinctFront(front, it);
      DistinctHits(front, id);
      CalledSnoc(front, it, id);
      MetByIdSnoc(front, it, id);
      MetByNameSnoc(front, it, id);
      MetByIdIsCalled(front, id);
      if MeetsByName(front, it, id) {
        NotMetYet(front, it, id);
      }
      CallsOrAnswers(front, it, id);
    }
  }

  lemma CallsOrAnswers(items: seq<Item>, it: Item, id: string)
    ensures !(Calls(it, id) && AnswersById(it, id))
    ensures Calls(it, id) ==> it.part.Call? && CallId(it) == id
  {
  }

  /** When calls are distinct, each is completed once if a later response carries its id, once more if it is met by name. */
  lemma CompletionsOfDistinct(items: seq<Item>, id: string)
    requires DistinctCalls(items)
    ensures Completions(Run(items).sent, id) == Count(MetById(items, id)) + Count(MetByName(items, id))
  {
    hide Run, Completions, Announcements, IdHits, NameHits, CallCount, MetById, MetByName;
    CompletionsExact(items, id);
    DistinctHits(items, id);
  }

  // ----- mixed histories -----

  /**
   Mixing the two kinds of response loses this. Each kind removes the call from its own table only, so in any history
   where a call heads its name's queue and is open by id, a response by id and one by name, in either order, both
   complete it.
   */
  lemma MixedCompletesTwice(items: seq<Item>, ided: Item, named: Item)
    requires ided.part.Response? && named.part.Response? && named.part.id == ""
    requires var s := Run(items);
      && ided.part.id in s.byId
      && Queue(s.byName, named.part.name) != []
      && Queue(s.byName, named.part.name)[0] == ided.part.id
    ensures var s := Run(items);
      var byId, byName := Completed(ided.part.id, ided.part.name, ided.part.result),
                          Completed(ided.part.id, named.part.name, named.part.result);
      && Run(items + [ided] + [named]).sent == s.sent + [byId, byName]
      && Run(items + [named] + [ided]).sent == s.sent + [byName, byId]
  {
    RunKnown(items);
    hide Run, Known, CompletesKnown, Decimal, GeneratedId;
    RunSnoc(items, ided);
    RunSnoc(items + [ided], named);
    RunSnoc(items, named);
    RunSnoc(items + [named], ided);
  }

  /** Those are two completions of the call more than before. */
  lemma MixedCompletesTwiceMore(items: seq<Item>, ided: Item, named: Item)
    requires ided.part.Response? && named.part.Response? && named.part.id == ""
    requires var s := Run(items);
      && ided.part.id in s.byId
      && Queue(s.byName, named.part.name) != []
      && Queue(s.byName, named.part.name)[0] == ided.part.id
    ensures Completions(Run(items + [ided] + [named]).sent, ided.part.id) == Completions(Run(items).sent, ided.part.id) + 2
  {
    hide Run, Completions;
    MixedCompletesTwice(items, ided, named);
    var byId, byName := Completed(ided.part.id, ided.part.name, ided.part.result),
                        Completed(ided.part.id, named.part.name, named.part.result);
    CompletionsSnoc(Run(items).sent, byId, ided.part.id);
    CompletionsSnoc(Run(items).sent + [byId], byName, ided.part.id);
    assert Run(items).sent + [byId, byName] == Run(items).sent + [byId] + [byName];
  }

  // ----- the whole replay, told from the history alone -----

  function PartsBefore(turns: seq<Turn>): nat {
    if turns == [] then 0
    else
      var last := turns[|turns| - 1];
      PartsBefore(turns[..|turns| - 1]) + (if last.parts.Some? then |last.parts.value| else 0)
  }

  lemma {:induction false} FlattenLength(turns: seq<Turn>)
    ensures |Flatten(turns)| == PartsBefore(turns)
  {
    if turns != [] {
      FlattenLength(turns[..|turns| - 1]);
    }
  }

  /** Every part of every parsable turn has its one place, in order. */
  lemma {:induction false} EveryPartOnce(turns: seq<Turn>, t: nat, i: nat)
    requires t < |turns| && turns[t].parts.Some? && i < |turns[t].parts.value|
    ensures |Flatten(turns)| == PartsBefore(turns) > PartsBefore(turns[..t]) + i
    ensures Flatten(turns)[PartsBefore(turns[..t]) + i] == Item(turns[t].number, turns[t].user, i, turns[t].parts.value[i])
  {
    FlattenLength(turns);
    FlattenLength(turns[..t]);
    hide Flatten, PartsBefore;
    var more := FlattenPrefix(turns, t, i + 1);
  }

  /** The call a response belongs to: the open call of its id, or the first of its name not yet taken. */
  function MetBy(history: seq<Item>, r: Part): Option<string>
    requires r.Response?
  {
    if r.id != "" then (if OpenIn(history, r.id) then Some(r.id) else None)
    else if Taken(history, r.name) < |CallsNamed(history, r.name)| then Some(CallsNamed(history, r.name)[Taken(history, r.name)])
    else None
  }

  function Tell(history: seq<Item>, it: Item): seq<Update> {
    match it.part
    case Text(text, thought) =>
      if text == "" then []
      else if thought then [Chunk(Thought, text)]
      else if it.user then [Chunk(UserMessage, text)]
      else [Chunk(AgentMessage, text)]
    case Call(id, name, args) =>
      [Announced(if id != "" then id else "replay-" + Decimal(it.number) + "-" + Decimal(it.index), name, args)]
    case Response(_, name, result) =>
      if MetBy(history, it.part).Some? then [Completed(MetBy(history, it.part).value, name, result)]
      else if result.Some? then [Chunk(AgentMessage, result.value)]
      else []
    case Inline(mime) => [Chunk(if it.user then UserMessage else AgentMessage, "[inline data: " + mime + "]")]
    case Empty => []
  }

  function Told(items: seq<Item>): seq<Update> {
    if items == [] then [] else Told(items[..|items| - 1]) + Tell(items[..|items| - 1], items[|items| - 1])
  }

  lemma {:induction false} ShownIsTold(items: seq<Item>, it: Item)
    ensures Tell(items, it) == if Shown(Run(items), it).Some? then [Shown(Run(items), it).value] else []
  {
    hide Run, OpenIn, CallsNamed, Taken, Known, CompletesKnown, Decimal;
    RunKnown(items);
    if it.part.Response? {
      OpenById(items, it.part.id);
      QueueIsRest(items, it.part.name);
    }
  }

  /** The tables the replay keeps come to this: every update it sends is the one the history before the part calls for. */
  lemma {:induction false} ReplayTells(items: seq<Item>)
    ensures Run(items).sent == Told(items)
  {
    if items != [] {
      var front, it := items[..|items| - 1], items[|items| - 1];
      ReplayTells(front);
      ShownIsTold(front, it);
      assert Run(items) == Step(Run(front), it);
      hide Run, Tell, Shown;
    }
  }
}
