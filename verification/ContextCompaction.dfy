/**
 `TaskContextCompactor.compact_to_budget` (src/lightworker/context.py): dropping whole tool-call groups,
 oldest first, until the messages fit.  The budget is an arbitrary predicate on message lists.
 */
module ContextCompaction {

  datatype Role = System | User | Assistant | Tool

  datatype Message = Message(role: Role, content: string)

  type Fits = seq<Message> -> bool

  datatype Compaction = Compacted(messages: seq<Message>, removed: seq<Message>) | CapacityError

  function Flatten(groups: seq<seq<Message>>): seq<Message> {
    if groups == [] then [] else groups[0] + Flatten(groups[1..])
  }

  /** The position of the latest user message, or the number of messages when there is none. */
  function LatestUser(messages: seq<Message>): (k: nat)
    ensures k <= |messages|
    ensures k < |messages| ==> messages[k].role.User? && forall i | k < i < |messages| :: !messages[i].role.User?
    ensures k == |messages| ==> forall i | 0 <= i < |messages| :: !messages[i].role.User?
    decreases |messages|
  {
    if messages == [] then 0
    else if messages[|messages| - 1].role.User? then |messages| - 1
    else
      var k := LatestUser(messages[..|messages| - 1]);
      if k == |messages| - 1 then |messages| else k
  }

  /** The system messages among the first `n`. */
  function Systems(messages: seq<Message>, n: nat): seq<Message>
    requires n <= |messages|
  {
    if n == 0 then
      []
    else
      var before := Systems(messages, n - 1);
      if messages[n - 1].role.System? then before + [messages[n - 1]] else before
  }

  /** The messages up to position `n` that may be dropped: no system message, not the one at `latest`. */
  function Rest(messages: seq<Message>, latest: nat, n: nat): (rest: seq<Message>)
    requires n <= |messages|
    ensures forall m | m in rest :: !m.role.System?
  {
    if n == 0 then
      []
    else
      var before := Rest(messages, latest, n - 1);
      if messages[n - 1].role.System? || n - 1 == latest then before else before + [messages[n - 1]]
  }

  function Droppable(messages: seq<Message>): seq<Message> {
    Rest(messages, LatestUser(messages), |messages|)
  }

  /** A place where the droppable messages may be cut: not in front of a tool result. */
  predicate Cut(rest: seq<Message>, c: nat) {
    c == 0 || (c < |rest| && !rest[c].role.Tool?)
  }

  /** What is never dropped. */
  function Mandatory(messages: seq<Message>, state: Message): seq<Message> {
    var k := LatestUser(messages);
    Systems(messages, |messages|) + [state] + (if k < |messages| then [messages[k]] else [])
  }

  /** The groups are cut out of `rest`: each starts at a cut and the first tool-free start of it. */
  ghost predicate Groups(groups: seq<seq<Message>>, rest: seq<Message>) {
    && Flatten(groups) == rest
    && (forall g | 0 <= g < |groups| :: groups[g] != [])
    && (forall g | 0 < g < |groups| :: !groups[g][0].role.Tool?)
    && (forall g, i | 0 <= g < |groups| && 0 < i < |groups[g]| :: groups[g][i].role.Tool?)
  }

  lemma {:induction false} FlattenSplit(a: seq<seq<Message>>, b: seq<seq<Message>>)
    ensures Flatten(a + b) == Flatten(a) + Flatten(b)
  {
    if a == [] {
      assert a + b == b;
    } else {
      assert a + b == [a[0]] + (a[1..] + b);
      FlattenSplit(a[1..], b);
    }
  }

  lemma FlattenOne(group: seq<Message>)
    ensures Flatten([group]) == group
  {
  }

  /** How long the first `g` groups are together. */
  function Offset(groups: seq<seq<Message>>, g: nat): nat
    requires g <= |groups|
  {
    |Flatten(groups[..g])|
  }

  lemma GroupsAt(groups: seq<seq<Message>>, rest: seq<Message>, g: nat)
    requires Groups(groups, rest) && g <= |groups|
    ensures Offset(groups, g) <= |rest|
    ensures Flatten(groups[..g]) == rest[..Offset(groups, g)] && Flatten(groups[g..]) == rest[Offset(groups, g)..]
    ensures g < |groups| ==> Offset(groups, g + 1) == Offset(groups, g) + |groups[g]| && Cut(rest, Offset(groups, g))
    ensures g == |groups| ==> Offset(groups, g) == |rest|
    ensures g < |groups| ==> rest[Offset(groups, g)..Offset(groups, g) + |groups[g]|] == groups[g]
  {
    assert groups == groups[..g] + groups[g..];
    FlattenSplit(groups[..g], groups[g..]);
    if g < |groups| {
      assert groups[..g + 1] == groups[..g] + [groups[g]];
      FlattenSplit(groups[..g], [groups[g]]);
      FlattenOne(groups[g]);
      assert groups[g..] == [groups[g]] + groups[g + 1..];
      FlattenSplit([groups[g]], groups[g + 1..]);
      assert rest[Offset(groups, g)] == groups[g][0];
      assert groups[..0] == [];
    } else {
      assert groups[..g] == groups && groups[g..] == [];
    }
  }

  /** The request that is sent when the droppable messages are cut at `c`. */
  function Request(messages: seq<Message>, state: Message, c: nat): seq<Message>
    requires c <= |Droppable(messages)|
  {
    Mandatory(messages, state) + Droppable(messages)[c..]
  }

  /** What is sent: the system messages, the state, the latest user message, and then what the cut has left. */
  lemma RequestInOrder(messages: seq<Message>, state: Message, c: nat)
    requires c <= |Droppable(messages)|
    ensures
      var request, systems, k := Request(messages, state, c), Systems(messages, |messages|), LatestUser(messages);
      var front := if k < |messages| then [state, messages[k]] else [state];
      request == systems + front + Droppable(messages)[c..]
  {
    var systems, k := Systems(messages, |messages|), LatestUser(messages);
    if k < |messages| {
      assert systems + [state] + [messages[k]] == systems + [state, messages[k]];
    } else {
      assert systems + [state] + [] == systems + [state];
    }
  }

  /** `c` is the first cut whose request fits. */
  ghost predicate FirstFit(messages: seq<Message>, state: Message, fits: Fits, c: nat) {
    && c <= |Droppable(messages)|
    && Cut(Droppable(messages), c)
    && fits(Request(messages, state, c))
    && NothingLongerFits(messages, state, fits, c)
  }

  ghost predicate NothingLongerFits(messages: seq<Message>, state: Message, fits: Fits, c: nat)
    requires c <= |Droppable(messages)|
  {
    forall b | 0 <= b < c && Cut(Droppable(messages), b) :: !fits(Request(messages, state, b))
  }

  /** No cut lies inside a group. */
  lemma CutsAreOffsets(groups: seq<seq<Message>>, rest: seq<Message>, g: nat)
    requires Groups(groups, rest) && g < |groups|
    ensures Offset(groups, g + 1) <= |rest|
    ensures forall b | Offset(groups, g) < b < Offset(groups, g + 1) :: !Cut(rest, b)
  {
    GroupsAt(groups, rest, g);
    GroupsAt(groups, rest, g + 1);
    forall b | Offset(groups, g) < b < Offset(groups, g + 1)
      ensures !Cut(rest, b)
    {
      assert rest[b] == groups[g][b - Offset(groups, g)];
    }
  }

  lemma NewGroup(groups: seq<seq<Message>>, rest: seq<Message>, message: Message)
    requires Groups(groups, rest) && (message.role.Tool? ==> groups == [])
    ensures Groups(groups + [[message]], rest + [message])
  {
    FlattenSplit(groups, [[message]]);
    FlattenOne([message]);
    assert forall g | 0 <= g < |groups| :: (groups + [[message]])[g] == groups[g];
  }

  /** The grouping loop: a tool result joins the group before it, any other message opens one. */
  method Group(values: seq<Message>) returns (groups: seq<seq<Message>>)
    ensures Groups(groups, Droppable(values))
  {
    var latest := LatestUser(values);
    groups := [];
    for n := 0 to |values|
      invariant Groups(groups, Rest(values, latest, n))
    {
      if !values[n].role.System? && n != latest {
        if values[n].role.Tool? && groups != [] {
          groups := AppendToLast(groups, Rest(values, latest, n), values[n]);
        } else {
          NewGroup(groups, Rest(values, latest, n), values[n]);
          groups := groups + [[values[n]]];
        }
      }
    }
  }

  method AppendToLast(groups: seq<seq<Message>>, ghost rest: seq<Message>, message: Message)
    returns (longer: seq<seq<Message>>)
    requires Groups(groups, rest) && groups != [] && message.role.Tool?
    ensures Groups(longer, rest + [message])
  {
    var last := |groups| - 1;
    longer := groups[..last] + [groups[last] + [message]];
    assert groups == groups[..last] + [groups[last]];
    FlattenSplit(groups[..last], [groups[last]]);
    FlattenSplit(groups[..last], [groups[last] + [message]]);
    FlattenOne(groups[last]);
    FlattenOne(groups[last] + [message]);
  }

  /** What is known when the first `g` groups have been dropped. */
  ghost predicate Dropped(values: seq<Message>, state: Message, fits: Fits, groups: seq<seq<Message>>, g: nat) {
    && Groups(groups, Droppable(values))
    && (if groups == [] then g == 0 else g < |groups|)
    && Offset(groups, g) <= |Droppable(values)|
    && Cut(Droppable(values), Offset(groups, g))
    && NothingLongerFits(values, state, fits, Offset(groups, g))
  }

  lemma DropGroup(values: seq<Message>, state: Message, fits: Fits, groups: seq<seq<Message>>, g: nat)
    requires Dropped(values, state, fits, groups, g) && g + 1 < |groups|
    requires !fits(Request(values, state, Offset(groups, g)))
    ensures Dropped(values, state, fits, groups, g + 1)
    ensures Droppable(values)[..Offset(groups, g)] + groups[g] == Droppable(values)[..Offset(groups, g + 1)]
  {
    var rest := Droppable(values);
    GroupsAt(groups, rest, g);
    GroupsAt(groups, rest, g + 1);
    CutsAreOffsets(groups, rest, g);
  }

  lemma LastGroup(values: seq<Message>, state: Message, fits: Fits, groups: seq<seq<Message>>, g: nat)
    requires Dropped(values, state, fits, groups, g) && |groups| <= g + 1
    requires !fits(Request(values, state, Offset(groups, g)))
    ensures forall c | 0 <= c <= |Droppable(values)| && Cut(Droppable(values), c) :: !fits(Request(values, state, c))
  {
    if groups != [] {
      GroupsAt(groups, Droppable(values), g + 1);
      CutsAreOffsets(groups, Droppable(values), g);
    }
  }

  /**
   `compact_to_budget`: the request fits, it drops as little as any cut in front of a group can, and the call
   fails exactly when no such cut fits.  What was dropped is reported.
   */
  method CompactToBudget(values: seq<Message>, state: Message, fits: Fits) returns (r: Compaction)
    ensures fits(values) ==> r == Compacted(values, [])
    ensures !fits(values) && r.Compacted? ==>
      var c := |r.removed|;
      FirstFit(values, state, fits, c) && r.removed == Droppable(values)[..c] && r.messages == Request(values, state, c)
    ensures !fits(values) && r.CapacityError? ==>
      forall c | 0 <= c <= |Droppable(values)| && Cut(Droppable(values), c) :: !fits(Request(values, state, c))
  {
    if fits(values) {
      return Compacted(values, []);
    }
    var groups := Group(values);
    var mandatory := Mandatory(values, state);
    var kept, removed := groups, [];
    ghost var g := 0;
    GroupsAt(groups, Droppable(values), 0);
    while |kept| > 1 && !fits(mandatory + Flatten(kept))
      invariant Dropped(values, state, fits, groups, g) && kept == groups[g..]
      invariant Flatten(kept) == Droppable(values)[Offset(groups, g)..]
      invariant removed == Droppable(values)[..Offset(groups, g)]
      decreases |kept|
    {
      DropGroup(values, state, fits, groups, g);
      GroupsAt(groups, Droppable(values), g + 1);
      removed := removed + kept[0];
      kept := kept[1..];
      g := g + 1;
    }
    var result := mandatory + Flatten(kept);
    if fits(result) {
      return Compacted(result, removed);
    }
    LastGroup(values, state, fits, groups, g);
    r := CapacityError;
  }

  // What a cut means for the conversation

  /** Where the droppable messages are found among the droppable ones. */
  lemma {:induction false} RestAt(messages: seq<Message>, latest: nat, i: nat, n: nat)
    requires i < n <= |messages| && !messages[i].role.System? && i != latest
    ensures |Rest(messages, latest, i)| < |Rest(messages, latest, n)|
    ensures Rest(messages, latest, n)[|Rest(messages, latest, i)|] == messages[i]
    decreases n
  {
    if i < n - 1 {
      RestAt(messages, latest, i, n - 1);
    }
  }

  /**
   A tool result stays directly behind the message it followed, or is dropped together with it.  Only behind a
   system message or the latest user message, which move to the front, does a tool result lose its place.
   */
  lemma ToolResultsStay(messages: seq<Message>, state: Message, i: nat, c: nat)
    requires i + 1 < |messages| && messages[i + 1].role.Tool?
    requires !messages[i].role.System? && i != LatestUser(messages)
    requires c <= |Droppable(messages)| && Cut(Droppable(messages), c)
    ensures
      var at := |Rest(messages, LatestUser(messages), i)|;
      var request, front := Request(messages, state, c), |Mandatory(messages, state)|;
      if at < c then
        at + 1 < c && Droppable(messages)[..c][at] == messages[i] && Droppable(messages)[..c][at + 1] == messages[i + 1]
      else
        && front + at - c + 1 < |request|
        && request[front + at - c] == messages[i] && request[front + at - c + 1] == messages[i + 1]
  {
    var latest := LatestUser(messages);
    RestAt(messages, latest, i, |messages|);
    RestAt(messages, latest, i + 1, |messages|);
  }

  function One(b: bool): nat {
    if b then 1 else 0
  }

  lemma CountAppend(before: seq<Message>, last: Message, m: Message)
    ensures Count(before + [last], m) == Count(before, m) + One(last == m)
  {
  }

  /** How often `m` occurs. */
  function Count(messages: seq<Message>, m: Message): nat {
    multiset(messages)[m]
  }

  lemma {:induction false} RestCounts(messages: seq<Message>, latest: nat, n: nat, m: Message)
    requires n <= |messages| && (latest < |messages| ==> !messages[latest].role.System?)
    ensures Count(Rest(messages, latest, n), m) + Count(Systems(messages, n), m)
            + One(latest < n && messages[latest] == m)
         == Count(messages[..n], m)
  {
    if n > 0 {
      RestCounts(messages, latest, n - 1, m);
      var rest, systems := Rest(messages, latest, n - 1), Systems(messages, n - 1);
      var last := messages[n - 1];
      assert messages[..n] == messages[..n - 1] + [last];
      CountAppend(messages[..n - 1], last, m);
      if last.role.System? {
        CountAppend(systems, last, m);
      } else if n - 1 != latest {
        CountAppend(rest, last, m);
      }
    }
  }

  /** Every message is either sent or reported as removed, and the state message is added. */
  lemma NothingIsLost(messages: seq<Message>, state: Message, c: nat, m: Message)
    requires c <= |Droppable(messages)|
    ensures Count(Request(messages, state, c), m) + Count(Droppable(messages)[..c], m)
         == Count(messages, m) + One(m == state)
  {
    var k, n := LatestUser(messages), |messages|;
    RestCounts(messages, k, n, m);
    assert messages[..n] == messages;
    assert Droppable(messages) == Droppable(messages)[..c] + Droppable(messages)[c..];
    CountAppend(Systems(messages, n), state, m);
    if k < n {
      CountAppend(Systems(messages, |messages|) + [state], messages[k], m);
    }
  }

  /** The system messages stay, in their order, in front. */
  lemma {:induction false} SystemsAt(messages: seq<Message>, i: nat, n: nat)
    requires i < n <= |messages| && messages[i].role.System?
    ensures |Systems(messages, i)| < |Systems(messages, n)|
    ensures Systems(messages, n)[|Systems(messages, i)|] == messages[i]
    decreases n
  {
    if i < n - 1 {
      SystemsAt(messages, i, n - 1);
    }
  }
}
