/**
 Mid-conversation effort pinning (`applyMidConversationEffort`).

 The host sends the whole history with every request and chooses a reasoning
 effort each time. The rewriter pins the opening effort at request level and
 carries every later change as a `configuration_update` item in front of a
 user message. It remembers where each change was made, because the host does
 not replay the items it inserts.
 */
module EffortPin {
  import opened Options

  /** Input items as far as the rewriter tells them apart. */
  datatype Item =
    | UserMessage(body: string)
    | OtherItem(body: string)
    | ConfigUpdate(effort: string)

  /** A remembered change: it goes in front of the item at `anchor` of the host's input. */
  datatype Update = Update(anchor: int, fingerprint: string, effort: string)

  datatype Pin = Pin(pinned: Option<string>, updates: seq<Update>)

  datatype Request = Request(model: string, effort: Option<string>, input: Option<seq<Item>>)

  datatype Call = Call(agent: Option<string>, request: Request)

  /** The hash of an item. Nothing is assumed of it, so collisions are allowed for. */
  type Hash = Item -> string

  const NO_PIN := Pin(None, [])

  const MID_CONVERSATION_EFFORT_MODELS: set<string> :=
    {"gpt-6-astra", "gpt-6-sol", "gpt-6-luna", "gpt-6.1-sol"}

  const HIDDEN_EFFORT_AGENTS: set<string> := {"title", "compaction", "summary"}

  /** Whether the rewriter acts on this call at all. */
  predicate Handles(call: Call) {
    && !(call.agent.Some? && call.agent.value in HIDDEN_EFFORT_AGENTS)
    && call.request.model in MID_CONVERSATION_EFFORT_MODELS
    && call.request.effort.Some?
    && call.request.effort.value != ""
  }

  /** Index of the last user message, or -1. */
  function LastUser(input: seq<Item>): (k: int)
    ensures -1 <= k < |input|
    ensures k >= 0 ==> input[k].UserMessage?
    ensures forall i :: k < i < |input| ==> !input[i].UserMessage?
  {
    if input == [] then -1
    else if input[|input| - 1].UserMessage? then |input| - 1
    else LastUser(input[..|input| - 1])
  }

  /** Whether `input` no longer holds the user message `u` was anchored at. */
  predicate Broken(hash: Hash, u: Update, input: Option<seq<Item>>) {
    || input.None?
    || !(0 <= u.anchor < |input.value|)
    || !input.value[u.anchor].UserMessage?
    || hash(input.value[u.anchor]) != u.fingerprint
  }

  predicate AnyBroken(hash: Hash, updates: seq<Update>, input: Option<seq<Item>>) {
    exists i :: 0 <= i < |updates| && Broken(hash, updates[i], input)
  }

  predicate Increasing(updates: seq<Update>) {
    forall i, j :: 0 <= i < j < |updates| ==> updates[i].anchor < updates[j].anchor
  }

  /** The effort the remembered changes leave in force. */
  function Effective(pinned: string, updates: seq<Update>): string {
    if updates == [] then pinned else updates[|updates| - 1].effort
  }

  /** The remembered changes once `effort` is asked for at the user message `anchor`. */
  function Remember(hash: Hash, pinned: string, updates: seq<Update>, effort: string,
                    anchor: int, input: seq<Item>): seq<Update>
    requires 0 <= anchor < |input|
  {
    var n := |updates|;
    if n > 0 && updates[n - 1].anchor == anchor then
      if effort == Effective(pinned, updates[..n - 1]) then updates[..n - 1]
      else updates[n - 1 := updates[n - 1].(effort := effort)]
    else updates + [Update(anchor, hash(input[anchor]), effort)]
  }

  predicate Fits(updates: seq<Update>, n: nat) {
    && Increasing(updates)
    && forall i :: 0 <= i < |updates| ==> 0 <= updates[i].anchor < n
  }

  /** `input` with every update placed in front of its anchor. */
  function Insert(input: seq<Item>, updates: seq<Update>): seq<Item>
    requires Fits(updates, |input|)
    decreases |updates|
  {
    if updates == [] then input
    else
      var last := updates[|updates| - 1];
      Insert(input[..last.anchor], updates[..|updates| - 1])
      + [ConfigUpdate(last.effort)] + input[last.anchor..]
  }

  /** The last update splits the input: everything before it is inserted on its left. */
  lemma InsertLast(input: seq<Item>, updates: seq<Update>)
    requires updates != [] && Fits(updates, |input|)
    ensures var last := updates[|updates| - 1];
            var front := updates[..|updates| - 1];
            && 0 <= last.anchor < |input|
            && Fits(front, last.anchor)
            && Insert(input, updates)
            == Insert(input[..last.anchor], front) + [ConfigUpdate(last.effort)] + input[last.anchor..]
  {
  }

  /** The check the code makes compares neighbours only. */
  predicate NeighboursOutOfOrder(updates: seq<Update>) {
    exists i :: 0 < i < |updates| && updates[i].anchor <= updates[i - 1].anchor
  }

  lemma {:induction false} NeighboursDecideOrder(updates: seq<Update>)
    ensures NeighboursOutOfOrder(updates) <==> !Increasing(updates)
  {
    if |updates| > 1 {
      var n := |updates| - 1;
      var front := updates[..n];
      NeighboursDecideOrder(front);
      if !NeighboursOutOfOrder(updates) {
        assert updates[n - 1].anchor < updates[n].anchor;
        assert !NeighboursOutOfOrder(front) by {
          forall i | 0 < i < n ensures front[i].anchor > front[i - 1].anchor {
            assert updates[i].anchor > updates[i - 1].anchor;
          }
        }
        forall i, j | 0 <= i < j <= n ensures updates[i].anchor < updates[j].anchor {
          assert front[n - 1] == updates[n - 1];
          if j < n { assert front[i].anchor < front[j].anchor; }
          else if i < n - 1 { assert front[i].anchor < front[n - 1].anchor; }
        }
      }
    }
  }

  /** What one call does to the session's pin and to the request. */
  function Apply(hash: Hash, pin: Pin, call: Call): (Pin, Request) {
    if !Handles(call) then (pin, call.request)
    else
      var effort := call.request.effort.value;
      var input := call.request.input;
      if pin.pinned.None? || AnyBroken(hash, pin.updates, input) then
        (Pin(Some(effort), []), call.request)
      else if input.None? || input.value == [] then (pin, call.request)
      else
        var anchor := LastUser(input.value);
        var changed := effort != Effective(pin.pinned.value, pin.updates);
        if anchor < 0 && changed then (pin, call.request)
        else
          var updates :=
            if changed then Remember(hash, pin.pinned.value, pin.updates, effort, anchor, input.value)
            else pin.updates;
          if !Increasing(updates) then (Pin(Some(effort), []), call.request)
          else
            (pin.(updates := updates),
             call.request.(effort := pin.pinned, input := Some(Insert(input.value, updates))))
  }

  // ---------------------------------------------------------------------
  // The imperative form
  // ---------------------------------------------------------------------

  class CodexSessionMetadata {
    var pinnedEffort: Option<string>
    var effortUpdates: Option<seq<Update>>

    function State(): Pin
      reads this
    {
      Pin(pinnedEffort, if effortUpdates.Some? then effortUpdates.value else [])
    }

    constructor ()
      ensures State() == NO_PIN
    {
      pinnedEffort, effortUpdates := None, None;
    }
  }

  class ParsedBody {
    var model: string
    var effort: Option<string>
    var input: Option<seq<Item>>

    function State(): Request
      reads this
    {
      Request(model, effort, input)
    }
  }

  /** Edits the parsed body and the session metadata in place. */
  method ApplyMidConversationEffort(hash: Hash, parsed: ParsedBody, metadata: CodexSessionMetadata,
                                    agent: Option<string>)
    modifies parsed, metadata
    ensures (metadata.State(), parsed.State())
         == Apply(hash, old(metadata.State()), Call(agent, old(parsed.State())))
  {
    if agent.Some? && agent.value in HIDDEN_EFFORT_AGENTS { return; }
    if parsed.model !in MID_CONVERSATION_EFFORT_MODELS { return; }
    if parsed.effort.None? || parsed.effort.value == "" { return; }
    var effort := parsed.effort.value;
    if metadata.effortUpdates.None? { metadata.effortUpdates := Some([]); }
    var updates := metadata.effortUpdates.value;
    if metadata.pinnedEffort.None? || AnyBroken(hash, updates, parsed.input) {
      metadata.pinnedEffort := Some(effort);
      metadata.effortUpdates := Some([]);
      return;
    }
    if parsed.input.None? || parsed.input.value == [] { return; }
    hide AnyBroken;
    hide Insert;
    hide Remember;
    hide Effective;
    hide Increasing;
    hide Fits;
    hide NeighboursOutOfOrder;
    hide LastUser;
    ghost var remembered := updates;
    var input := parsed.input.value;
    var pinned := metadata.pinnedEffort.value;
    var anchor := LastUser(input);
    var effective := Effective(pinned, updates);
    if anchor >= 0 && effort != effective {
      updates := RecordChange(hash, metadata, effort, anchor, input);
    } else if anchor < 0 && effort != effective {
      return;
    }
    NeighboursDecideOrder(updates);
    AnchorsUpToLastUser(hash, remembered, input);
    if anchor >= 0 { RememberMatches(hash, Pin(Some(pinned), remembered), effort, input); }
    if NeighboursOutOfOrder(updates) {
      metadata.pinnedEffort := Some(effort);
      metadata.effortUpdates := Some([]);
      return;
    }
    parsed.effort := Some(pinned);
    SpliceUpdates(parsed, updates);
  }

  /** Pops, edits or pushes the latest remembered change. */
  method RecordChange(hash: Hash, metadata: CodexSessionMetadata, effort: string, anchor: int, input: seq<Item>)
    returns (updates: seq<Update>)
    requires 0 <= anchor < |input|
    requires metadata.pinnedEffort.Some? && metadata.effortUpdates.Some?
    modifies metadata`effortUpdates
    ensures updates == Remember(hash, metadata.pinnedEffort.value, old(metadata.effortUpdates.value),
                                effort, anchor, input)
    ensures metadata.effortUpdates == Some(updates)
  {
    updates := metadata.effortUpdates.value;
    var n := |updates|;
    if n > 0 && updates[n - 1].anchor == anchor {
      var before := if n > 1 then updates[n - 2].effort else metadata.pinnedEffort.value;
      if effort == before {
        updates := updates[..n - 1];
      } else {
        updates := updates[n - 1 := updates[n - 1].(effort := effort)];
      }
    } else {
      updates := updates + [Update(anchor, hash(input[anchor]), effort)];
    }
    metadata.effortUpdates := Some(updates);
  }

  /** Splices from the highest anchor down, so the lower anchors stay valid. */
  method SpliceUpdates(parsed: ParsedBody, updates: seq<Update>)
    requires parsed.input.Some? && Fits(updates, |parsed.input.value|)
    modifies parsed`input
    ensures parsed.input == Some(Insert(old(parsed.input.value), updates))
  {
    ghost var host := parsed.input.value;
    ghost var left, tail := host, [];
    assert host == left + tail;
    var i := |updates| - 1;
    assert updates[..i + 1] == updates;
    while i >= 0
      invariant -1 <= i < |updates|
      invariant parsed.input == Some(left + tail)
      invariant Fits(updates[..i + 1], |left|)
      invariant Insert(host, updates) == Insert(left, updates[..i + 1]) + tail
    {
      var u := updates[i];
      assert updates[..i + 1][i] == u && updates[..i + 1][..i] == updates[..i];
      InsertLast(left, updates[..i + 1]);
      var now := parsed.input.value;
      parsed.input := Some(now[..u.anchor] + [ConfigUpdate(u.effort)] + now[u.anchor..]);
      SpliceStep(left, tail, u);
      tail := [ConfigUpdate(u.effort)] + left[u.anchor..] + tail;
      left := left[..u.anchor];
      i := i - 1;
    }
    assert updates[..0] == [];
  }

  lemma SpliceStep(left: seq<Item>, tail: seq<Item>, u: Update)
    requires 0 <= u.anchor < |left|
    ensures (left + tail)[..u.anchor] + [ConfigUpdate(u.effort)] + (left + tail)[u.anchor..]
         == left[..u.anchor] + ([ConfigUpdate(u.effort)] + left[u.anchor..] + tail)
    ensures forall head: seq<Item> :: head + [ConfigUpdate(u.effort)] + left[u.anchor..] + tail
                                   == head + ([ConfigUpdate(u.effort)] + left[u.anchor..] + tail)
  {
  }

  // ---------------------------------------------------------------------
  // Reachable pins
  // ---------------------------------------------------------------------

  /** What every session's pin satisfies: changes in history order, none of them a no-op. */
  ghost predicate Reachable(pin: Pin) {
    && (pin.pinned.None? ==> pin.updates == [])
    && Increasing(pin.updates)
    && forall i :: 0 <= i < |pin.updates| ==> ChangesEffort(pin, i)
  }

  /** The change at index `i` asks for another effort than the one in force before it. */
  predicate ChangesEffort(pin: Pin, i: nat)
    requires i < |pin.updates|
  {
    && pin.pinned.Some?
    && pin.updates[i].effort != if i > 0 then pin.updates[i - 1].effort else pin.pinned.value
  }

  /** `pin` with every anchor a user message of `input` whose hash it remembers. */
  ghost predicate Matches(hash: Hash, pin: Pin, input: seq<Item>) {
    && pin.pinned.Some?
    && !AnyBroken(hash, pin.updates, Some(input))
    && Fits(pin.updates, |input|)
  }

  lemma AnchorsUpToLastUser(hash: Hash, updates: seq<Update>, input: seq<Item>)
    requires !AnyBroken(hash, updates, Some(input))
    ensures forall i :: 0 <= i < |updates| ==> 0 <= updates[i].anchor <= LastUser(input)
    ensures Increasing(updates) ==> Fits(updates, |input|)
  {
    forall i | 0 <= i < |updates| ensures 0 <= updates[i].anchor <= LastUser(input) {
      assert !Broken(hash, updates[i], Some(input));
    }
  }

  /** Remembering a change at the last user message keeps the anchors in order and no change a no-op. */
  lemma RememberKeepsOrder(hash: Hash, pin: Pin, effort: string, input: seq<Item>)
    requires Reachable(pin) && Matches(hash, pin, input) && LastUser(input) >= 0
    requires effort != Effective(pin.pinned.value, pin.updates)
    ensures var updates := Remember(hash, pin.pinned.value, pin.updates, effort, LastUser(input), input);
            && Effective(pin.pinned.value, updates) == effort
            && Reachable(pin.(updates := updates))
            && Matches(hash, pin.(updates := updates), input)
  {
    var anchor, n := LastUser(input), |pin.updates|;
    var updates := Remember(hash, pin.pinned.value, pin.updates, effort, anchor, input);
    AnchorsUpToLastUser(hash, pin.updates, input);
    var next := pin.(updates := updates);
    forall i | 0 <= i < |updates| ensures ChangesEffort(next, i) {
      if i < n { assert ChangesEffort(pin, i); }
    }
    RememberMatches(hash, pin, effort, input);
  }

  lemma RememberMatches(hash: Hash, pin: Pin, effort: string, input: seq<Item>)
    requires pin.pinned.Some? && !AnyBroken(hash, pin.updates, Some(input)) && LastUser(input) >= 0
    ensures var updates := Remember(hash, pin.pinned.value, pin.updates, effort, LastUser(input), input);
            && !AnyBroken(hash, updates, Some(input))
            && (Increasing(updates) ==> Fits(updates, |input|))
  {
    RememberedUnbroken(hash, pin, effort, input);
    hide AnyBroken;
    hide Remember;
    hide Increasing;
    hide Fits;
    AnchorsUpToLastUser(hash, Remember(hash, pin.pinned.value, pin.updates, effort, LastUser(input), input), input);
  }

  lemma RememberedUnbroken(hash: Hash, pin: Pin, effort: string, input: seq<Item>)
    requires pin.pinned.Some? && !AnyBroken(hash, pin.updates, Some(input)) && LastUser(input) >= 0
    ensures !AnyBroken(hash, Remember(hash, pin.pinned.value, pin.updates, effort, LastUser(input), input), Some(input))
  {
    hide Effective;
    var k, n := LastUser(input), |pin.updates|;
    assert input[k].UserMessage?;
    hide LastUser;
    var updates := Remember(hash, pin.pinned.value, pin.updates, effort, k, input);
    assert n > 0 ==> !Broken(hash, pin.updates[n - 1], Some(input));
    forall i | 0 <= i < |updates| ensures !Broken(hash, updates[i], Some(input)) {
      if i < n - 1 { assert updates[i] == pin.updates[i] && !Broken(hash, pin.updates[i], Some(input)); }
    }
  }

  /**
   Every call keeps the pin reachable. The branch that restarts the pin when two anchors are out
   of order is never taken: a handled call on a pin that matches its input never loses the pin.
   */
  lemma {:induction false} ApplyKeepsReachable(hash: Hash, pin: Pin, call: Call)
    requires Reachable(pin)
    ensures Reachable(Apply(hash, pin, call).0)
    ensures Handles(call) && pin.pinned.Some? && !AnyBroken(hash, pin.updates, call.request.input)
            ==> Apply(hash, pin, call).0.pinned == pin.pinned
    ensures Handles(call) && call.request.input.Some?
            ==> Matches(hash, Apply(hash, pin, call).0, call.request.input.value)
  {
    if Handles(call) && call.request.input.Some? && pin.pinned.Some? {
      var input := call.request.input.value;
      if !AnyBroken(hash, pin.updates, Some(input)) {
        AnchorsUpToLastUser(hash, pin.updates, input);
        if LastUser(input) >= 0 && call.request.effort.value != Effective(pin.pinned.value, pin.updates) {
          RememberKeepsOrder(hash, pin, call.request.effort.value, input);
        }
      }
    } else if Handles(call) && call.request.input.None? && pin.pinned.Some? && pin.updates != [] {
      assert Broken(hash, pin.updates[0], call.request.input);
    }
  }

  // ---------------------------------------------------------------------
  // What the rewritten request means
  // ---------------------------------------------------------------------

  predicate Clean(input: seq<Item>) {
    forall i :: 0 <= i < |input| ==> !input[i].ConfigUpdate?
  }

  predicate CleanRequest(request: Request) {
    request.input.Some? ==> Clean(request.input.value)
  }

  /** The effort of the last update item, if there is one. */
  function LastConfig(input: seq<Item>): Option<string> {
    if input == [] then None
    else if input[|input| - 1].ConfigUpdate? then Some(input[|input| - 1].effort)
    else LastConfig(input[..|input| - 1])
  }

  /** The effort the server applies at the end of a request: the last update overrides the request's own. */
  function InForce(request: Request): Option<string> {
    if request.input.Some? && LastConfig(request.input.value).Some? then LastConfig(request.input.value)
    else request.effort
  }

  function Erase(input: seq<Item>): seq<Item> {
    if input == [] then []
    else Erase(input[..|input| - 1])
         + (if input[|input| - 1].ConfigUpdate? then [] else [input[|input| - 1]])
  }

  predicate NoneAdjacent(input: seq<Item>) {
    forall i :: 0 < i < |input| ==> !(input[i - 1].ConfigUpdate? && input[i].ConfigUpdate?)
  }

  lemma {:induction false} AppendClean(a: seq<Item>, b: seq<Item>)
    requires Clean(b)
    ensures LastConfig(a + b) == LastConfig(a)
    ensures Erase(a + b) == Erase(a) + b
  {
    hide LastConfig;
    hide Erase;
    if b == [] {
      assert a + b == a && Erase(a) + b == Erase(a);
    } else {
      var front, last := b[..|b| - 1], b[|b| - 1];
      AppendClean(a, front);
      assert a + b == (a + front) + [last];
      LastItem(a + front, last);
      assert (Erase(a) + front) + [last] == Erase(a) + b;
    }
  }

  lemma {:induction false} LastItem(items: seq<Item>, item: Item)
    ensures LastConfig(items + [item]) == if item.ConfigUpdate? then Some(item.effort) else LastConfig(items)
    ensures Erase(items + [item]) == if item.ConfigUpdate? then Erase(items) else Erase(items) + [item]
  {
    assert (items + [item])[..|items|] == items;
  }

  lemma AppendUpdate(a: seq<Item>, effort: string)
    ensures LastConfig(a + [ConfigUpdate(effort)]) == Some(effort)
    ensures Erase(a + [ConfigUpdate(effort)]) == Erase(a)
  {
    assert (a + [ConfigUpdate(effort)])[..|a|] == a;
  }

  /** Inserted into update-free input, the updates erase away and the last one rules. */
  lemma {:induction false} InsertMeaning(input: seq<Item>, updates: seq<Update>)
    requires Clean(input) && Fits(updates, |input|)
    ensures Erase(Insert(input, updates)) == input
    ensures LastConfig(Insert(input, updates))
         == if updates == [] then None else Some(updates[|updates| - 1].effort)
    decreases |updates|
  {
    if updates == [] {
      assert [] + input == input;
      AppendClean([], input);
    } else {
      var last := updates[|updates| - 1];
      var front := updates[..|updates| - 1];
      InsertLast(input, updates);
      var left, right := input[..last.anchor], input[last.anchor..];
      InsertMeaning(left, front);
      AppendUpdate(Insert(left, front), last.effort);
      AppendClean(Insert(left, front) + [ConfigUpdate(last.effort)], right);
      assert left + right == input;
    }
  }

  /** A host item always separates two inserted updates. */
  lemma {:induction false} InsertKeepsApart(input: seq<Item>, updates: seq<Update>)
    requires Clean(input) && Fits(updates, |input|)
    ensures NoneAdjacent(Insert(input, updates))
    ensures |Insert(input, updates)| >= |input|
    ensures input == [] || Insert(input, updates)[|Insert(input, updates)| - 1] == input[|input| - 1]
    decreases |updates|
  {
    if updates != [] {
      var last := updates[|updates| - 1];
      var front := updates[..|updates| - 1];
      InsertLast(input, updates);
      var left, right := input[..last.anchor], input[last.anchor..];
      InsertKeepsApart(left, front);
      var all := Insert(left, front);
      assert left == [] ==> front == [];
      assert Insert(input, updates) == all + [ConfigUpdate(last.effort)] + right;
      assert !right[0].ConfigUpdate?;
    }
  }

  /**
   The meaning of a rewritten request, for every pin, every call and every hash: the effort in
   force at its end is the one the host asked for, erasing the updates gives back the host's
   input, and no two updates touch.
   */
  lemma RewriteMeansTheHostRequest(hash: Hash, pin: Pin, call: Call)
    requires CleanRequest(call.request)
    ensures var wire := Apply(hash, pin, call).1;
            && InForce(wire) == call.request.effort
            && wire.model == call.request.model
            && wire.input.Some? == call.request.input.Some?
            && (wire.input.Some? ==>
                  && Erase(wire.input.value) == call.request.input.value
                  && NoneAdjacent(wire.input.value))
  {
    ApplyForms(hash, pin, call);
    if call.request.input.Some? {
      var input := call.request.input.value;
      InsertMeaning(input, []);
      var updates := Apply(hash, pin, call).0.updates;
      if Fits(updates, |input|) {
        InsertMeaning(input, updates);
        InsertKeepsApart(input, updates);
      }
    }
  }

  /** The two things a call can do: leave the request alone, or insert the remembered changes. */
  lemma ApplyForms(hash: Hash, pin: Pin, call: Call)
    ensures var (pin', wire) := Apply(hash, pin, call);
            || wire == call.request
            || (&& call.request.input.Some? && pin.pinned.Some?
                && Fits(pin'.updates, |call.request.input.value|)
                && Some(Effective(pin.pinned.value, pin'.updates)) == call.request.effort
                && wire == call.request.(effort := pin.pinned,
                                         input := Some(Insert(call.request.input.value, pin'.updates))))
  {
    if call.request.input.Some? && pin.pinned.Some? && !AnyBroken(hash, pin.updates, call.request.input) {
      var input := call.request.input.value;
      AnchorsUpToLastUser(hash, pin.updates, input);
      if Handles(call) && LastUser(input) >= 0 {
        var effort := call.request.effort.value;
        RememberMatches(hash, pin, effort, input);
        if effort != Effective(pin.pinned.value, pin.updates) {
          RememberTakesEffect(hash, pin.pinned.value, pin.updates, effort, LastUser(input), input);
        }
      }
    }
  }

  lemma RememberTakesEffect(hash: Hash, pinned: string, updates: seq<Update>, effort: string,
                            anchor: int, input: seq<Item>)
    requires 0 <= anchor < |input|
    ensures Effective(pinned, Remember(hash, pinned, updates, effort, anchor, input)) == effort
  {
  }

  // ---------------------------------------------------------------------
  // The prompt-cache prefix
  // ---------------------------------------------------------------------

  /** Updates placed inside a prefix do not depend on what follows it. */
  lemma {:induction false} InsertIntoPrefix(input: seq<Item>, more: seq<Item>, updates: seq<Update>)
    requires Fits(updates, |input|) && input <= more
    ensures Fits(updates, |more|) && Insert(input, updates) <= Insert(more, updates)
  {
    if updates != [] {
      var a := updates[|updates| - 1].anchor;
      assert input[..a] == more[..a];
      assert input[a..] <= more[a..];
    }
  }

  /** An update behind the prefix leaves the prefix as it is. */
  lemma {:induction false} InsertBehindPrefix(input: seq<Item>, more: seq<Item>, updates: seq<Update>, u: Update)
    requires Fits(updates, |input|) && input <= more && |input| <= u.anchor < |more|
    ensures Fits(updates + [u], |more|) && Insert(input, updates) <= Insert(more, updates + [u])
  {
    FitsPush(updates, |input|, u, |more|);
    InsertLast(more, updates + [u]);
    assert (updates + [u])[..|updates|] == updates;
    assert input <= more[..u.anchor];
    InsertIntoPrefix(input, more[..u.anchor], updates);
  }

  lemma FitsPush(updates: seq<Update>, n: nat, u: Update, m: nat)
    requires Fits(updates, n) && n <= u.anchor < m
    ensures Fits(updates + [u], m)
  {
  }

  /** The wire input up to the last user message and the update in front of it. */
  function BeforeLastTurn(wire: seq<Item>): seq<Item> {
    BeforeTurn(wire, LastUser(wire))
  }

  function BeforeTurn(wire: seq<Item>, k: int): seq<Item>
    requires k < |wire|
  {
    if k < 0 then wire
    else if k > 0 && wire[k - 1].ConfigUpdate? then wire[..k - 1]
    else wire[..k]
  }

  predicate UserSince(before: seq<Item>, after: seq<Item>) {
    LastUser(after) >= |before|
  }

  /** On the wire every handled call is the host's input with the pin's changes inserted. */
  lemma {:induction false} HandledWire(hash: Hash, pin: Pin, call: Call)
    requires Reachable(pin) && Handles(call) && call.request.input.Some?
    ensures Reachable(Apply(hash, pin, call).0)
    ensures Matches(hash, Apply(hash, pin, call).0, call.request.input.value)
    ensures Apply(hash, pin, call).1.input
         == Some(Insert(call.request.input.value, Apply(hash, pin, call).0.updates))
  {
    ApplyKeepsReachable(hash, pin, call);
    ApplyForms(hash, pin, call);
    var input := call.request.input.value;
    if pin.pinned.Some? && !AnyBroken(hash, pin.updates, Some(input)) && LastUser(input) < 0 {
      NoUserNoChanges(hash, pin.updates, input);
    }
  }

  /** Once there is a user message, the pin carries the host's effort and the request the pinned one. */
  lemma HandledEffort(hash: Hash, pin: Pin, call: Call)
    requires Reachable(pin) && Handles(call) && call.request.input.Some?
    requires LastUser(call.request.input.value) >= 0
    ensures var (pin', wire) := Apply(hash, pin, call);
            && pin'.pinned.Some? && wire.effort == pin'.pinned
            && Effective(pin'.pinned.value, pin'.updates) == call.request.effort.value
  {
    var input := call.request.input.value;
    ApplyKeepsReachable(hash, pin, call);
    if pin.pinned.Some? && !AnyBroken(hash, pin.updates, Some(input)) {
      AnchorsUpToLastUser(hash, pin.updates, input);
      if call.request.effort.value != Effective(pin.pinned.value, pin.updates) {
        RememberKeepsOrder(hash, pin, call.request.effort.value, input);
      }
    }
  }

  lemma NoUserNoChanges(hash: Hash, updates: seq<Update>, input: seq<Item>)
    requires !AnyBroken(hash, updates, Some(input)) && LastUser(input) < 0
    ensures updates == []
  {
    assert updates != [] ==> Broken(hash, updates[0], Some(input));
  }

  /** What a second call remembers, once the host has appended to a first call's input. */
  lemma AppendedUpdates(hash: Hash, pin: Pin, host: seq<Item>, second: Call)
    requires Reachable(pin) && Matches(hash, pin, host) && Handles(second) && second.request.input.Some?
    requires host <= second.request.input.value
    ensures var more := second.request.input.value;
            var effort := second.request.effort.value;
            var pin' := Apply(hash, pin, second).0;
            && pin'.pinned == pin.pinned
            && pin'.updates ==
                 if LastUser(more) >= 0 && effort != Effective(pin.pinned.value, pin.updates)
                 then Remember(hash, pin.pinned.value, pin.updates, effort, LastUser(more), more)
                 else pin.updates
  {
    var more := second.request.input.value;
    forall i | 0 <= i < |pin.updates| ensures !Broken(hash, pin.updates[i], Some(more)) {
      assert !Broken(hash, pin.updates[i], Some(host));
    }
    AnchorsUpToLastUser(hash, pin.updates, more);
    if LastUser(more) >= 0 && second.request.effort.value != Effective(pin.pinned.value, pin.updates) {
      RememberKeepsOrder(hash, pin, second.request.effort.value, more);
    }
  }

  /** The changes made before the user message at `k`. */
  function ChangesBefore(updates: seq<Update>, k: int): seq<Update> {
    if updates != [] && updates[|updates| - 1].anchor == k then updates[..|updates| - 1] else updates
  }

  lemma {:induction false} BeforeLastTurnOfInsert(hash: Hash, pin: Pin, input: seq<Item>)
    requires Matches(hash, pin, input) && Clean(input) && LastUser(input) >= 0
    ensures var k := LastUser(input);
            && Fits(ChangesBefore(pin.updates, k), k)
            && BeforeLastTurn(Insert(input, pin.updates)) == Insert(input[..k], ChangesBefore(pin.updates, k))
  {
    AnchorsUpToLastUser(hash, pin.updates, input);
    hide AnyBroken;
    hide Insert;
    hide BeforeLastTurn;
    hide LastUser;
    var k, n := LastUser(input), |pin.updates|;
    if n > 0 && pin.updates[n - 1].anchor == k {
      BeforeChangedTurn(input, pin.updates);
    } else {
      BeforeUnchangedTurn(input, pin.updates);
    }
  }

  lemma BeforeUnchangedTurn(input: seq<Item>, updates: seq<Update>)
    requires Clean(input) && LastUser(input) >= 0 && Fits(updates, LastUser(input))
    ensures BeforeLastTurn(Insert(input, updates)) == Insert(input[..LastUser(input)], updates)
  {
    var k := LastUser(input);
    InsertKeepsApart(input[..k], updates);
    InsertTail(input, k, updates);
    hide Insert;
    var head := Insert(input[..k], updates);
    LastUserOfTail(head, input, k);
    BeforeTail(head, input[k..]);
  }

  lemma BeforeChangedTurn(input: seq<Item>, updates: seq<Update>)
    requires LastUser(input) >= 0 && Fits(updates, |input|)
    requires updates != [] && updates[|updates| - 1].anchor == LastUser(input)
    ensures var front := updates[..|updates| - 1];
            && Fits(front, LastUser(input))
            && BeforeLastTurn(Insert(input, updates)) == Insert(input[..LastUser(input)], front)
  {
    var k, u := LastUser(input), updates[|updates| - 1];
    InsertLast(input, updates);
    hide Insert;
    var head := Insert(input[..k], updates[..|updates| - 1]);
    LastUserOfTail(head + [ConfigUpdate(u.effort)], input, k);
    BeforeUpdate(head, u.effort, input[k..]);
  }

  lemma BeforeUpdate(head: seq<Item>, effort: string, tail: seq<Item>)
    requires tail != []
    ensures BeforeTurn(head + [ConfigUpdate(effort)] + tail, |head| + 1) == head
  {
    var wire := head + [ConfigUpdate(effort)] + tail;
    assert wire[|head|] == ConfigUpdate(effort) && wire[..|head|] == head;
  }

  lemma BeforeTail(head: seq<Item>, tail: seq<Item>)
    requires tail != [] && (head == [] || !head[|head| - 1].ConfigUpdate?)
    ensures BeforeTurn(head + tail, |head|) == head
  {
  }

  lemma InsertTail(input: seq<Item>, k: nat, updates: seq<Update>)
    requires k <= |input| && Fits(updates, k)
    ensures Insert(input, updates) == Insert(input[..k], updates) + input[k..]
  {
    if updates != [] {
      var a := updates[|updates| - 1].anchor;
      assert input[..k][..a] == input[..a];
      assert input[a..] == input[..k][a..] + input[k..];
    } else {
      assert input == input[..k] + input[k..];
    }
  }

  lemma {:induction false} LastUserOfTail(head: seq<Item>, input: seq<Item>, k: nat)
    requires k == LastUser(input)
    ensures LastUser(head + input[k..]) == |head|
  {
    hide LastUser;
    var all := head + input[k..];
    assert all[|head|] == input[k];
    forall m | |head| < m < |all| ensures !all[m].UserMessage? {
      assert all[m] == input[k + (m - |head|)];
    }
  }

  predicate Extends(first: Request, second: Request) {
    first.input.Some? && second.input.Some? && first.input.value <= second.input.value
  }

  /**
   Prefix stability, for any reachable pin. When the host appends to its history, the rewritten
   input of the second request extends that of the first, unless the effort changed with no new
   user message.
   */
  lemma {:induction false} AppendKeepsPrefix(hash: Hash, pin: Pin, first: Call, second: Call)
    requires Reachable(pin) && Handles(first) && Handles(second)
    requires Extends(first.request, second.request)
    requires || first.request.effort == second.request.effort
             || UserSince(first.request.input.value, second.request.input.value)
             || LastUser(second.request.input.value) < 0
    ensures Extends(Apply(hash, pin, first).1, Apply(hash, Apply(hash, pin, first).0, second).1)
  {
    var host, more := first.request.input.value, second.request.input.value;
    var pin' := Apply(hash, pin, first).0;
    HandledWire(hash, pin, first);
    HandledWire(hash, pin', second);
    AppendedUpdates(hash, pin', host, second);
    LastUserOfPrefix(host, more);
    if LastUser(host) >= 0 { HandledEffort(hash, pin, first); }
    InsertGrows(hash, pin', host, more, second.request.effort.value);
  }

  lemma {:induction false} InsertGrows(hash: Hash, pin: Pin, host: seq<Item>, more: seq<Item>, effort: string)
    requires Matches(hash, pin, host) && host <= more
    requires || effort == Effective(pin.pinned.value, pin.updates)
             || UserSince(host, more)
             || LastUser(more) < 0
    ensures var updates :=
              if LastUser(more) >= 0 && effort != Effective(pin.pinned.value, pin.updates)
              then Remember(hash, pin.pinned.value, pin.updates, effort, LastUser(more), more)
              else pin.updates;
            Fits(updates, |more|) && Insert(host, pin.updates) <= Insert(more, updates)
  {
    var k := LastUser(more);
    if k >= |host| && effort != Effective(pin.pinned.value, pin.updates) {
      InsertBehindPrefix(host, more, pin.updates, Update(k, hash(more[k]), effort));
    } else {
      InsertIntoPrefix(host, more, pin.updates);
    }
  }

  /** What stands in front of the user message at `k` on the wire, and what comes next. */
  lemma NextOnTheWire(input: seq<Item>, updates: seq<Update>, k: nat)
    requires k < |input| && Fits(updates, |input|) && forall i :: 0 <= i < |updates| ==> updates[i].anchor <= k
    ensures Fits(ChangesBefore(updates, k), k)
    ensures var head, wire := Insert(input[..k], ChangesBefore(updates, k)), Insert(input, updates);
            && |head| < |wire|
            && wire[|head|] == if ChangesBefore(updates, k) == updates then input[k]
                               else ConfigUpdate(updates[|updates| - 1].effort)
  {
    var n := |updates|;
    if n > 0 && updates[n - 1].anchor == k {
      InsertLast(input, updates);
    } else {
      if n > 0 { assert forall i :: 0 <= i < n - 1 ==> updates[i].anchor < updates[n - 1].anchor; }
      InsertTail(input, k, updates);
    }
  }

  /** An effort changed with no new user message changes what stands in front of the last one. */
  lemma ChangedTurnIsNoPrefix(hash: Hash, pin: Pin, host: seq<Item>, more: seq<Item>, effort: string)
    requires Matches(hash, pin, host) && host <= more && 0 <= LastUser(more) < |host|
    requires effort != Effective(pin.pinned.value, pin.updates)
    requires Fits(Remember(hash, pin.pinned.value, pin.updates, effort, LastUser(more), more), |more|)
    ensures var updates := Remember(hash, pin.pinned.value, pin.updates, effort, LastUser(more), more);
            !(Insert(host, pin.updates) <= Insert(more, updates))
  {
    var k := LastUser(more);
    var updates := Remember(hash, pin.pinned.value, pin.updates, effort, k, more);
    LastUserOfPrefix(host, more);
    AnchorsUpToLastUser(hash, pin.updates, host);
    assert more[k].UserMessage? && host[k] == more[k] && host[..k] == more[..k];
    hide LastUser;
    hide AnyBroken;
    hide Insert;
    RememberedAnchors(hash, pin.pinned.value, pin.updates, effort, k, more);
    RememberOnlyTouchesLastTurn(hash, pin.pinned.value, pin.updates, effort, k, more);
    NextOnTheWire(host, pin.updates, k);
    NextOnTheWire(more, updates, k);
    ItemsDiffer(hash, pin, effort, k, more);
  }

  lemma RememberedAnchors(hash: Hash, pinned: string, updates: seq<Update>, effort: string, k: int, input: seq<Item>)
    requires 0 <= k < |input| && forall i :: 0 <= i < |updates| ==> updates[i].anchor <= k
    ensures var next := Remember(hash, pinned, updates, effort, k, input);
            forall i :: 0 <= i < |next| ==> next[i].anchor <= k
  {
    hide Effective;
  }

  lemma ItemsDiffer(hash: Hash, pin: Pin, effort: string, k: nat, input: seq<Item>)
    requires pin.pinned.Some? && k < |input| && Increasing(pin.updates)
    requires effort != Effective(pin.pinned.value, pin.updates)
    ensures var updates := Remember(hash, pin.pinned.value, pin.updates, effort, k, input);
            var before := ChangesBefore(pin.updates, k);
            && (before == pin.updates ==> ChangesBefore(updates, k) != updates)
            && (before != pin.updates && ChangesBefore(updates, k) != updates ==>
                  pin.updates[|pin.updates| - 1].effort != updates[|updates| - 1].effort)
  {
    var n := |pin.updates|;
    var updates := Remember(hash, pin.pinned.value, pin.updates, effort, k, input);
    if n > 0 && pin.updates[n - 1].anchor == k {
      var front := pin.updates[..n - 1];
      assert |ChangesBefore(pin.updates, k)| < n;
      if effort == Effective(pin.pinned.value, front) {
        if n > 1 { assert front[n - 2] == pin.updates[n - 2] && pin.updates[n - 2].anchor < k; }
        assert updates == front && ChangesBefore(front, k) == front;
      } else {
        assert updates[n - 1].effort == effort;
      }
    } else {
      assert ChangesBefore(pin.updates, k) == pin.updates;
      assert |updates| == n + 1 && updates[n].anchor == k;
      assert |ChangesBefore(updates, k)| == n;
    }
  }

  /** So the rewritten request extends the one before exactly when the host's effort changes only at a new turn. */
  lemma {:induction false} AppendKeepsPrefixExactlyWhen(hash: Hash, pin: Pin, first: Call, second: Call)
    requires Reachable(pin) && Handles(first) && Handles(second)
    requires Extends(first.request, second.request)
    ensures Extends(Apply(hash, pin, first).1, Apply(hash, Apply(hash, pin, first).0, second).1)
       <==> || first.request.effort == second.request.effort
            || UserSince(first.request.input.value, second.request.input.value)
            || LastUser(second.request.input.value) < 0
  {
    var host, more := first.request.input.value, second.request.input.value;
    if || first.request.effort == second.request.effort || UserSince(host, more) || LastUser(more) < 0 {
      AppendKeepsPrefix(hash, pin, first, second);
    } else {
      var pin' := Apply(hash, pin, first).0;
      HandledWire(hash, pin, first);
      HandledWire(hash, pin', second);
      AppendedUpdates(hash, pin', host, second);
      LastUserOfPrefix(host, more);
      HandledEffort(hash, pin, first);
      hide Apply;
      hide Insert;
      hide Remember;
      ChangedTurnIsNoPrefix(hash, pin', host, more, second.request.effort.value);
    }
  }

  /**
   With no new user message, whatever happens to the effort, the two requests agree on everything
   before the last user message and the update in front of it.
   */
  lemma {:induction false} SameTurnKeepsEarlierTurns(hash: Hash, pin: Pin, first: Call, second: Call)
    requires Reachable(pin) && Handles(first) && Handles(second)
    requires Extends(first.request, second.request) && Clean(second.request.input.value)
    requires 0 <= LastUser(second.request.input.value) < |first.request.input.value|
    ensures var (pin', wire) := Apply(hash, pin, first);
            var wire' := Apply(hash, pin', second).1;
            && wire.input.Some? && wire'.input.Some?
            && BeforeLastTurn(wire.input.value) == BeforeLastTurn(wire'.input.value)
  {
    var host, more := first.request.input.value, second.request.input.value;
    var k := LastUser(more);
    hide Apply;
    hide LastUser;
    hide Insert;
    hide Remember;
    hide BeforeLastTurn;
    hide AnyBroken;
    hide ChangesBefore;
    hide Effective;
    hide Reachable;
    hide Matches;
    HandledWire(hash, pin, first);
    var pin' := Apply(hash, pin, first).0;
    HandledWire(hash, pin', second);
    LastUserOfPrefix(host, more);
    assert host[..k] == more[..k];
    BeforeLastTurnOfInsert(hash, pin', host);
    BeforeLastTurnOfInsert(hash, Apply(hash, pin', second).0, more);
    OnlyLastTurnChanges(hash, pin', host, second);
  }

  lemma OnlyLastTurnChanges(hash: Hash, pin: Pin, host: seq<Item>, second: Call)
    requires Reachable(pin) && Matches(hash, pin, host) && Handles(second) && second.request.input.Some?
    requires host <= second.request.input.value && LastUser(second.request.input.value) >= 0
    ensures var k := LastUser(second.request.input.value);
            ChangesBefore(Apply(hash, pin, second).0.updates, k) == ChangesBefore(pin.updates, k)
  {
    hide Apply;
    hide LastUser;
    hide Remember;
    hide AnyBroken;
    hide ChangesBefore;
    hide Effective;
    AppendedUpdates(hash, pin, host, second);
    var more, effort := second.request.input.value, second.request.effort.value;
    if effort != Effective(pin.pinned.value, pin.updates) {
      RememberOnlyTouchesLastTurn(hash, pin.pinned.value, pin.updates, effort, LastUser(more), more);
    }
  }

  lemma RememberOnlyTouchesLastTurn(hash: Hash, pinned: string, updates: seq<Update>, effort: string,
                                    anchor: int, input: seq<Item>)
    requires 0 <= anchor < |input| && Increasing(updates)
    ensures ChangesBefore(Remember(hash, pinned, updates, effort, anchor, input), anchor)
         == ChangesBefore(updates, anchor)
  {
    var n := |updates|;
    if n > 1 { assert updates[n - 2].anchor < updates[n - 1].anchor; }
  }

  /** The request-level effort stays where it was while the host appends after its first user message. */
  lemma {:induction false} AppendKeepsRequestEffort(hash: Hash, pin: Pin, first: Call, second: Call)
    requires Reachable(pin) && Handles(first) && Handles(second)
    requires Extends(first.request, second.request) && LastUser(first.request.input.value) >= 0
    ensures Apply(hash, Apply(hash, pin, first).0, second).1.effort == Apply(hash, pin, first).1.effort
  {
    HandledWire(hash, pin, first);
    HandledEffort(hash, pin, first);
    LastUserOfPrefix(first.request.input.value, second.request.input.value);
    HandledEffort(hash, Apply(hash, pin, first).0, second);
    AppendedUpdates(hash, Apply(hash, pin, first).0, first.request.input.value, second);
  }

  /** Before the first user message, the effort a request goes out with. */
  lemma EffortBeforeFirstUser(hash: Hash, pin: Pin, call: Call)
    requires Reachable(pin) && Handles(call) && call.request.input.Some? && LastUser(call.request.input.value) < 0
    ensures Apply(hash, pin, call).1.effort == call.request.effort
    ensures Apply(hash, pin, call).0.pinned
         == if pin.pinned.None? || pin.updates != [] then call.request.effort else pin.pinned
  {
    var input := call.request.input.value;
    hide Insert;
    hide Remember;
    if pin.updates != [] { assert Broken(hash, pin.updates[0], Some(input)); }
  }

  /**
   The request-level effort stays exactly when there was a user message already; or there still is none and
   the host asks for the same effort; or the first call has pinned the effort it asked for, because nothing
   was pinned, the pin held changes, or it is the effort that was pinned.
   */
  lemma {:induction false} RequestEffortStaysExactlyWhen(hash: Hash, pin: Pin, first: Call, second: Call)
    requires Reachable(pin) && Handles(first) && Handles(second)
    requires Extends(first.request, second.request)
    ensures Apply(hash, Apply(hash, pin, first).0, second).1.effort == Apply(hash, pin, first).1.effort
       <==> || LastUser(first.request.input.value) >= 0
            || (if LastUser(second.request.input.value) < 0 then first.request.effort == second.request.effort
                else pin.pinned.None? || pin.updates != [] || pin.pinned == first.request.effort)
  {
    var host, more := first.request.input.value, second.request.input.value;
    var pin' := Apply(hash, pin, first).0;
    hide Apply;
    hide LastUser;
    if LastUser(host) >= 0 {
      AppendKeepsRequestEffort(hash, pin, first, second);
    } else {
      ApplyKeepsReachable(hash, pin, first);
      EffortBeforeFirstUser(hash, pin, first);
      if LastUser(more) < 0 {
        EffortBeforeFirstUser(hash, pin', second);
      } else {
        HandledWire(hash, pin, first);
        AppendedUpdates(hash, pin', host, second);
        HandledEffort(hash, pin', second);
      }
    }
  }

  lemma LastUserOfPrefix(host: seq<Item>, more: seq<Item>)
    requires host <= more
    ensures LastUser(more) < |host| ==> LastUser(host) == LastUser(more)
    ensures LastUser(host) <= LastUser(more)
  {
    var k, m := LastUser(host), LastUser(more);
    if k >= 0 { assert more[k] == host[k]; }
    if 0 <= m < |host| { assert more[m] == host[m]; }
  }

  // ---------------------------------------------------------------------
  // Whole sessions
  // ---------------------------------------------------------------------

  /** The pin after the first `n` calls of a session. */
  function PinAfter(hash: Hash, calls: seq<Call>, n: nat): Pin
    requires n <= |calls|
  {
    if n == 0 then NO_PIN else Apply(hash, PinAfter(hash, calls, n - 1), calls[n - 1]).0
  }

  /** The request that goes out for call `k` of a session. */
  function Wire(hash: Hash, calls: seq<Call>, k: nat): Request
    requires k < |calls|
  {
    Apply(hash, PinAfter(hash, calls, k), calls[k]).1
  }

  lemma {:induction false} PinsStayReachable(hash: Hash, calls: seq<Call>, n: nat)
    requires n <= |calls|
    ensures Reachable(PinAfter(hash, calls, n))
  {
    if n > 0 {
      PinsStayReachable(hash, calls, n - 1);
      ApplyKeepsReachable(hash, PinAfter(hash, calls, n - 1), calls[n - 1]);
    }
  }

  lemma {:induction false} UnhandledKeepsPin(hash: Hash, calls: seq<Call>, i: nat, j: nat)
    requires i <= j <= |calls|
    requires forall k :: i <= k < j ==> !Handles(calls[k])
    ensures PinAfter(hash, calls, j) == PinAfter(hash, calls, i)
  {
    if i < j { UnhandledKeepsPin(hash, calls, i, j - 1); }
  }

  /** The effort is the same, or there is a new user message, or none at all. */
  predicate Continues(first: Call, second: Call)
    requires Extends(first.request, second.request)
  {
    || first.request.effort == second.request.effort
    || UserSince(first.request.input.value, second.request.input.value)
    || LastUser(second.request.input.value) < 0
  }

  /** The handled call before `j`, at or after `i`. */
  function LatestHandled(calls: seq<Call>, i: nat, j: nat): (k: nat)
    requires i < j <= |calls| && Handles(calls[i])
    ensures i <= k < j && Handles(calls[k])
    ensures forall m :: k < m < j ==> !Handles(calls[m])
    decreases j
  {
    if Handles(calls[j - 1]) then j - 1 else LatestHandled(calls, i, j - 1)
  }

  /** From `i` to `j` the host appends to its history from each handled call to the next. */
  ghost predicate Appending(calls: seq<Call>, i: nat, j: nat)
    requires i < |calls| && Handles(calls[i]) && j < |calls|
  {
    forall b :: i < b <= j && Handles(calls[b]) ==> Extends(calls[LatestHandled(calls, i, b)].request, calls[b].request)
  }

  /**
   Over a whole session, calls of hidden agents and other models interleaved at will: while the host only
   appends, every rewritten input of the handled calls is a prefix of every later one, if each of them keeps
   the effort of the one before, or brings a new user message, or has none.
   */
  lemma {:induction false} SessionPrefixesChain(hash: Hash, calls: seq<Call>, i: nat, j: nat)
    requires i < j < |calls| && Handles(calls[i]) && Handles(calls[j])
    requires Appending(calls, i, j)
    requires forall b :: i < b <= j && Handles(calls[b]) ==> Continues(calls[LatestHandled(calls, i, b)], calls[b])
    ensures Extends(Wire(hash, calls, i), Wire(hash, calls, j))
    decreases j
  {
    hide Apply;
    var k := LatestHandled(calls, i, j);
    NextWireExtendsExactlyWhen(hash, calls, k, j);
    if i < k {
      SessionPrefixesChain(hash, calls, i, k);
    }
  }

  /** From one handled call to the next the rewritten input grows exactly then. */
  lemma NextWireExtendsExactlyWhen(hash: Hash, calls: seq<Call>, k: nat, j: nat)
    requires k < j < |calls| && Handles(calls[k]) && Handles(calls[j])
    requires forall m :: k < m < j ==> !Handles(calls[m])
    requires Extends(calls[k].request, calls[j].request)
    ensures Extends(Wire(hash, calls, k), Wire(hash, calls, j)) <==> Continues(calls[k], calls[j])
  {
    hide Apply;
    PinsStayReachable(hash, calls, k);
    PinAfterHandled(hash, calls, k, j);
    AppendKeepsPrefixExactlyWhen(hash, PinAfter(hash, calls, k), calls[k], calls[j]);
  }

  lemma {:induction false} PinAfterHandled(hash: Hash, calls: seq<Call>, k: nat, j: nat)
    requires k < j < |calls|
    requires forall m :: k < m < j ==> !Handles(calls[m])
    ensures Wire(hash, calls, j)
         == Apply(hash, Apply(hash, PinAfter(hash, calls, k), calls[k]).0, calls[j]).1
  {
    hide Apply;
    UnhandledKeepsPin(hash, calls, k + 1, j);
  }

  /** Every request of every session means what the host asked for. */
  lemma SessionMeansTheHostRequests(hash: Hash, calls: seq<Call>, k: nat)
    requires k < |calls| && CleanRequest(calls[k].request)
    ensures InForce(Wire(hash, calls, k)) == calls[k].request.effort
    ensures Wire(hash, calls, k).input.Some? ==>
              && calls[k].request.input.Some?
              && Erase(Wire(hash, calls, k).input.value) == calls[k].request.input.value
              && NoneAdjacent(Wire(hash, calls, k).input.value)
  {
    RewriteMeansTheHostRequest(hash, PinAfter(hash, calls, k), calls[k]);
  }

  // ---------------------------------------------------------------------
  // What the changes on the wire go back to
  // ---------------------------------------------------------------------

  /**
   A call takes part, pinning its effort on a fresh session, exactly when it comes from no hidden helper, is
   for one of the listed models and names an effort. Any other call goes out as it came and leaves the pin.
   */
  lemma TakesPartExactlyWhen(hash: Hash, pin: Pin, call: Call)
    ensures var (agent, model, effort) := (call.agent, call.request.model, call.request.effort);
            var takesPart := && agent != Some("title") && agent != Some("compaction") && agent != Some("summary")
                             && model in {"gpt-6-astra", "gpt-6-sol", "gpt-6-luna", "gpt-6.1-sol"}
                             && effort.Some? && effort.value != "";
            && Apply(hash, NO_PIN, call) == (if takesPart then Pin(effort, []) else NO_PIN, call.request)
            && (!takesPart ==> Apply(hash, pin, call) == (pin, call.request))
  {
  }

  /** The call asks for `effort`, and its last user message is at `anchor` and has this hash. */
  ghost predicate AskedAt(hash: Hash, call: Call, anchor: int, fingerprint: string, effort: string) {
    && call.request.effort == Some(effort)
    && call.request.input.Some? && 0 <= anchor < |call.request.input.value|
    && anchor == LastUser(call.request.input.value)
    && hash(call.request.input.value[anchor]) == fingerprint
  }

  /** One of the first `n` calls, one the rewriter acts on, asked for it there. */
  ghost predicate WasAskedFor(hash: Hash, calls: seq<Call>, n: nat, anchor: int, fingerprint: string, effort: string)
    requires n <= |calls|
  {
    exists c :: 0 <= c < n && Handles(calls[c]) && AskedAt(hash, calls[c], anchor, fingerprint, effort)
  }

  /** Remembering adds nothing but the change asked for, if the last one is of the message it stands at. */
  lemma RememberedFrom(hash: Hash, pinned: string, updates: seq<Update>, effort: string, anchor: int, input: seq<Item>,
                       u: Update)
    requires 0 <= anchor < |input|
    requires updates != [] ==> !Broken(hash, updates[|updates| - 1], Some(input))
    requires u in Remember(hash, pinned, updates, effort, anchor, input)
    ensures u in updates || u == Update(anchor, hash(input[anchor]), effort)
  {
    hide Effective;
  }

  lemma ChangeIsOldOrAskedFor(hash: Hash, pin: Pin, call: Call, i: nat)
    requires i < |Apply(hash, pin, call).0.updates|
    ensures var u := Apply(hash, pin, call).0.updates[i];
            || u in pin.updates
            || (Handles(call) && AskedAt(hash, call, u.anchor, u.fingerprint, u.effort))
  {
    var n := |pin.updates|;
    var u := Apply(hash, pin, call).0.updates[i];
    if Handles(call) && pin.pinned.Some? && !AnyBroken(hash, pin.updates, call.request.input) {
      if n > 0 { assert !Broken(hash, pin.updates[n - 1], call.request.input); }
      hide Effective;
      hide AnyBroken;
      hide Increasing;
      hide Insert;
      hide Remember;
      hide Broken;
      if u !in pin.updates {
        var input := call.request.input.value;
        RememberedFrom(hash, pin.pinned.value, pin.updates, call.request.effort.value, LastUser(input), input, u);
      }
    }
  }

  lemma {:induction false} ChangesWereAskedFor(hash: Hash, calls: seq<Call>, n: nat, i: nat)
    requires n <= |calls| && i < |PinAfter(hash, calls, n).updates|
    ensures var u := PinAfter(hash, calls, n).updates[i];
            WasAskedFor(hash, calls, n, u.anchor, u.fingerprint, u.effort)
    decreases n
  {
    hide Apply;
    if n > 0 {
      var pin := PinAfter(hash, calls, n - 1);
      var u := PinAfter(hash, calls, n).updates[i];
      ChangeIsOldOrAskedFor(hash, pin, calls[n - 1], i);
      if u in pin.updates {
        var j :| 0 <= j < |pin.updates| && pin.updates[j] == u;
        ChangesWereAskedFor(hash, calls, n - 1, j);
      }
    }
  }

  /** An inserted update stands directly in front of its anchor. */
  lemma {:induction false} UpdateStandsAtAnchor(input: seq<Item>, updates: seq<Update>, p: nat) returns (i: nat)
    requires Clean(input) && Fits(updates, |input|)
    requires p < |Insert(input, updates)| && Insert(input, updates)[p].ConfigUpdate?
    ensures i < |updates| && Insert(input, updates)[p] == ConfigUpdate(updates[i].effort)
    ensures 0 <= updates[i].anchor < |input|
    ensures p + 1 < |Insert(input, updates)| && Insert(input, updates)[p + 1] == input[updates[i].anchor]
    ensures Erase(Insert(input, updates)[..p]) == input[..updates[i].anchor]
    decreases |updates|
  {
    var n := |updates| - 1;
    var last, front := updates[n], updates[..n];
    InsertLast(input, updates);
    var left, wire := input[..last.anchor], Insert(input, updates);
    var head := Insert(left, front);
    if p < |head| {
      assert wire[p] == head[p] && wire[..p] == head[..p];
      i := UpdateStandsAtAnchor(left, front, p);
      assert left[..front[i].anchor] == input[..front[i].anchor];
    } else {
      assert p == |head| && wire[..p] == head;
      i := n;
      InsertMeaning(left, front);
    }
  }

  /**
   Every update on the wire stands directly in front of a user message, at the place in the history and of the
   hash of the last user message of a call, this one or an earlier one, that asked for the update's effort.
   */
  lemma {:induction false} UpdatesStandWhereAskedFor(hash: Hash, calls: seq<Call>, k: nat, p: nat)
    requires k < |calls| && CleanRequest(calls[k].request)
    requires Wire(hash, calls, k).input.Some? && p < |Wire(hash, calls, k).input.value|
    requires Wire(hash, calls, k).input.value[p].ConfigUpdate?
    ensures var wire := Wire(hash, calls, k).input.value;
            && p + 1 < |wire| && wire[p + 1].UserMessage?
            && WasAskedFor(hash, calls, k + 1, |Erase(wire[..p])|, hash(wire[p + 1]), wire[p].effort)
  {
    hide Apply;
    hide LastUser;
    hide Insert;
    hide Erase;
    hide Broken;
    var pin, call := PinAfter(hash, calls, k), calls[k];
    PinsStayReachable(hash, calls, k);
    UnhandledIsClean(hash, pin, call);
    HandledWire(hash, pin, call);
    var input, updates := call.request.input.value, PinAfter(hash, calls, k + 1).updates;
    var i := UpdateStandsAtAnchor(input, updates, p);
    UnbrokenAt(hash, updates, input, i);
    ChangesWereAskedFor(hash, calls, k + 1, i);
  }

  lemma UnhandledIsClean(hash: Hash, pin: Pin, call: Call)
    ensures !Handles(call) ==> Apply(hash, pin, call).1 == call.request
    ensures call.request.input.None? ==> Apply(hash, pin, call).1.input.None?
  {
    ApplyForms(hash, pin, call);
  }

  lemma UnbrokenAt(hash: Hash, updates: seq<Update>, input: seq<Item>, i: nat)
    requires !AnyBroken(hash, updates, Some(input)) && i < |updates|
    ensures 0 <= updates[i].anchor < |input| && input[updates[i].anchor].UserMessage?
    ensures hash(input[updates[i].anchor]) == updates[i].fingerprint
  {
    assert !Broken(hash, updates[i], Some(input));
  }

  /** `input` still has a user message of the recorded hash where the change was made. */
  ghost predicate StillThere(hash: Hash, u: Update, input: Option<seq<Item>>) {
    && input.Some? && 0 <= u.anchor < |input.value|
    && input.value[u.anchor].UserMessage? && hash(input.value[u.anchor]) == u.fingerprint
  }

  ghost predicate AllStillThere(hash: Hash, updates: seq<Update>, input: Option<seq<Item>>) {
    forall i :: 0 <= i < |updates| ==> StillThere(hash, updates[i], input)
  }

  /** Every change was made at the last user message, so that asking for the pinned effort takes it back. */
  ghost predicate OnlyAtLastUser(updates: seq<Update>, input: Option<seq<Item>>) {
    forall i :: 0 <= i < |updates| ==> input.Some? && updates[i].anchor == LastUser(input.value)
  }

  /**
   At any point of a session a handled call starts the pin over with its own effort and goes out as it came
   exactly when nothing was pinned, or a change was made where the history no longer has that message, or the
   call asks for the pinned effort with no change left before its last user message. Otherwise the pinned
   effort stays, and so does every change made at an earlier user message.
   */
  lemma {:induction false} StartsOverExactlyWhen(hash: Hash, calls: seq<Call>, k: nat)
    requires k < |calls| && Handles(calls[k])
    ensures var pin, request := PinAfter(hash, calls, k), calls[k].request;
            var (next, wire) := Apply(hash, pin, calls[k]);
            && ((next, wire) == (Pin(request.effort, []), request)
                <==> || pin.pinned.None? || !AllStillThere(hash, pin.updates, request.input)
                     || (pin.pinned == request.effort && OnlyAtLastUser(pin.updates, request.input)))
            && (pin.pinned.Some? && AllStillThere(hash, pin.updates, request.input) ==>
                  && next.pinned == pin.pinned
                  && forall i :: 0 <= i < |pin.updates| && pin.updates[i].anchor < LastUser(request.input.value) ==>
                       i < |next.updates| && next.updates[i] == pin.updates[i])
  {
    var pin, call := PinAfter(hash, calls, k), calls[k];
    PinsStayReachable(hash, calls, k);
    StaleMeansBroken(hash, pin.updates, call.request.input);
    if pin.pinned.Some? && AllStillThere(hash, pin.updates, call.request.input) {
      hide PinAfter;
      KeepsEarlierChanges(hash, pin, call);
    }
  }

  lemma StaleMeansBroken(hash: Hash, updates: seq<Update>, input: Option<seq<Item>>)
    ensures AnyBroken(hash, updates, input) <==> !AllStillThere(hash, updates, input)
  {
    forall i | 0 <= i < |updates|
      ensures Broken(hash, updates[i], input) <==> !StillThere(hash, updates[i], input)
    {
    }
  }

  lemma KeepsEarlierChanges(hash: Hash, pin: Pin, call: Call)
    requires Reachable(pin) && Handles(call) && pin.pinned.Some?
    requires !AnyBroken(hash, pin.updates, call.request.input)
    ensures var (next, wire) := Apply(hash, pin, call);
            && next.pinned == pin.pinned
            && ((next, wire) == (Pin(call.request.effort, []), call.request)
                <==> pin.pinned == call.request.effort && OnlyAtLastUser(pin.updates, call.request.input))
            && forall i :: 0 <= i < |pin.updates| && pin.updates[i].anchor < LastUser(call.request.input.value) ==>
                 i < |next.updates| && next.updates[i] == pin.updates[i]
  {
    ApplyKeepsReachable(hash, pin, call);
    KeepsChangesBefore(hash, pin, call);
    ApplyForms(hash, pin, call);
    if pin.updates != [] { assert ChangesEffort(pin, 0) && !Broken(hash, pin.updates[0], call.request.input); }
    if |pin.updates| > 1 { assert pin.updates[0].anchor < pin.updates[1].anchor; }
    if call.request.input.Some? { AnchorsUpToLastUser(hash, pin.updates, call.request.input.value); }
    hide AnyBroken;
    hide Increasing;
    hide LastUser;
  }

  lemma KeepsChangesBefore(hash: Hash, pin: Pin, call: Call)
    requires Reachable(pin) && Handles(call) && pin.pinned.Some?
    requires !AnyBroken(hash, pin.updates, call.request.input)
    ensures pin.updates != [] ==> call.request.input.Some?
    ensures forall i :: 0 <= i < |pin.updates| && pin.updates[i].anchor < LastUser(call.request.input.value) ==>
              i < |Apply(hash, pin, call).0.updates| && Apply(hash, pin, call).0.updates[i] == pin.updates[i]
  {
    if pin.updates != [] { assert !Broken(hash, pin.updates[0], call.request.input); }
    if call.request.input.Some? {
      var input, effort := call.request.input.value, call.request.effort.value;
      AnchorsUpToLastUser(hash, pin.updates, input);
      if LastUser(input) >= 0 && effort != Effective(pin.pinned.value, pin.updates) {
        RememberKeepsOrder(hash, pin, effort, input);
      }
      hide AnyBroken;
      hide Insert;
      hide LastUser;
    }
  }
}
