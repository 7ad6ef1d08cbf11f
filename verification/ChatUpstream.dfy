/**
 The scriptable chat double (apps/ui/e2e/ChatUpstream.ts): a script of the old wire is translated into
 one-call chain links that are served one per request. The text of a link is not modelled, only the
 call it makes and how it ends.
 */
module ChatUpstream {
  import opened Wrappers
  import opened Utf16
  import opened Json
  import Canonical

  /** What the arguments of a tool call parse to; arguments that are not text count as an empty object. */
  datatype Arguments = Malformed | Parsed(value: Value)

  datatype Frame =
    | Delta(kindIsText: bool, text: Option<Text>)
    | Card(card: Value)
    | CardUpdate(id: Value, patch: Value)
    | ToolCall(name: Option<Text>, arguments: Arguments)
    | Done(toolCall: bool, error: Option<Text>)
    | Error
    | OtherFrame

  datatype Effect =
    | Say(words: Text)
    | ShowCard(card: Value)
    | UpdateCard(id: Value, patch: Value)
    | Invoke(name: Text, payload: Value)

  datatype Terminal = Continue | Finish

  /** A turn of the old wire, or an authored link. */
  datatype Turn =
    | Wire(frames: seq<Frame>, raw: bool, paced: bool, status: Option<int>, computed: bool, requireTools: bool)
    | Link(effect: Effect, terminal: Terminal)

  // ------------------------------------------------------------------ the translation

  predicate IsContent(frame: Frame) {
    frame.Delta? || frame.Card? || frame.CardUpdate? || frame.ToolCall?
  }

  predicate Authored(frame: Frame) {
    frame.Delta? && frame.text.Some? && Lit("```flow") <= frame.text.value
  }

  /** `translatable`. */
  predicate Translatable(frames: seq<Frame>) {
    && frames != []
    && frames[|frames| - 1].Done?
    && (frames[|frames| - 1].error.None? || frames[|frames| - 1].error.value == [])
    && (forall i :: 0 <= i < |frames| ==> !frames[i].Error?)
    && (exists i :: 0 <= i < |frames| && IsContent(frames[i]))
    && !Authored(frames[0])
  }

  predicate IsSay(frame: Frame) {
    frame.Delta? && frame.kindIsText && frame.text.Some?
  }

  /** A call of the `commands` tool is the call of the flow it names. */
  function ToolEffect(name: Option<Text>, arguments: Arguments): Effect {
    var named := if name.Some? then name.value else [];
    match arguments
    case Malformed => Invoke(named, Obj([]))
    case Parsed(value) =>
      if named != Lit("commands") then Invoke(named, value)
      else if value.Null? then Invoke(named, Obj([]))
      else if value.Obj? && Canonical.Lookup(value.fields, Lit("name")).Str? then
        var args := Canonical.Lookup(value.fields, Lit("args"));
        Invoke(
          Canonical.Lookup(value.fields, Lit("name")).text,
          if args.Str? then Obj([(Lit("args"), args)]) else Obj([]))
      else Invoke(named, value)
  }

  /** What one frame does on the old wire, if anything. */
  function FrameEffects(frame: Frame): seq<Effect> {
    match frame
    case Delta(_, _) => if IsSay(frame) then [Say(frame.text.value)] else []
    case Card(card) => [ShowCard(card)]
    case CardUpdate(id, patch) => [UpdateCard(id, patch)]
    case ToolCall(name, arguments) => [ToolEffect(name, arguments)]
    case _ => []
  }

  /** What the frames do on the old wire, one effect a frame. */
  function WireEffects(frames: seq<Frame>): seq<Effect> {
    if frames == [] then []
    else WireEffects(frames[..|frames| - 1]) + FrameEffects(frames[|frames| - 1])
  }

  predicate EndsSaying(effects: seq<Effect>) {
    effects != [] && effects[|effects| - 1].Say?
  }

  /** Neighbouring words said in one breath. */
  function Coalesced(effects: seq<Effect>): seq<Effect> {
    if effects == [] then []
    else
      var front := Coalesced(effects[..|effects| - 1]);
      var last := effects[|effects| - 1];
      if last.Say? && EndsSaying(front) then
        front[..|front| - 1] + [Say(front[|front| - 1].words + last.words)]
      else front + [last]
  }

  predicate Continues(frames: seq<Frame>) {
    exists i :: 0 <= i < |frames| && frames[i].Done? && frames[i].toolCall
  }

  predicate PassesThrough(script: Turn) {
    || script.Link? || script.raw || script.paced || script.status.Some? || script.computed
    || !Translatable(script.frames)
  }

  function ToLinks(effects: seq<Effect>, continues: bool): (links: seq<Turn>)
    ensures |links| == |effects|
  {
    seq(|effects|, i requires 0 <= i < |effects| =>
      Link(effects[i], if i < |effects| - 1 || continues then Continue else Finish))
  }

  /** What a script becomes: itself, or one link for each thing it does. */
  function Expanded(script: Turn): seq<Turn> {
    if PassesThrough(script) || Coalesced(WireEffects(script.frames)) == [] then [script]
    else ToLinks(Coalesced(WireEffects(script.frames)), Continues(script.frames))
  }

  /** The words waiting to be said. */
  function Pending(saying: seq<Text>): seq<Effect> {
    if saying == [] then [] else [Say(Join(saying, []))]
  }

  lemma CoalescedSnoc(effects: seq<Effect>, last: Effect)
    ensures Coalesced(effects + [last]) ==
            var front := Coalesced(effects);
            if last.Say? && EndsSaying(front) then
              front[..|front| - 1] + [Say(front[|front| - 1].words + last.words)]
            else front + [last]
  {
    assert (effects + [last])[..|effects|] == effects;
  }

  lemma JoinSnoc(parts: seq<Text>, last: Text)
    ensures Join(parts + [last], []) == Join(parts, []) + last
  {
    if parts != [] {
      JoinAppend(parts, [last], []);
      assert Join(parts, []) + [] + last == Join(parts, []) + last;
    } else {
      assert parts + [last] == [last];
    }
  }

  lemma SayMore(calls: seq<Effect>, saying: seq<Text>, effects: seq<Effect>, words: Text)
    requires calls + Pending(saying) == Coalesced(effects) && !EndsSaying(calls)
    ensures calls + Pending(saying + [words]) == Coalesced(effects + [Say(words)])
  {
    CoalescedSnoc(effects, Say(words));
    JoinSnoc(saying, words);
    var front := Coalesced(effects);
    if saying == [] {
      assert front == calls;
      assert Join([words], []) == words && saying + [words] == [words];
    } else {
      assert front[|front| - 1] == Say(Join(saying, []));
      assert front[..|front| - 1] == calls;
    }
  }

  lemma DoNext(calls: seq<Effect>, saying: seq<Text>, effects: seq<Effect>, next: Effect)
    requires calls + Pending(saying) == Coalesced(effects) && !next.Say?
    ensures calls + Pending(saying) + [next] == Coalesced(effects + [next])
    ensures !EndsSaying(calls + Pending(saying) + [next])
    ensures calls + Pending(saying) + [next] + Pending([]) == calls + Pending(saying) + [next]
  {
    CoalescedSnoc(effects, next);
  }

  /** The loop of `expandProxyEntry`: the calls the frames make, and whether one ended in a tool call. */
  method CollectCalls(frames: seq<Frame>) returns (calls: seq<Effect>, continues: bool)
    ensures calls == Coalesced(WireEffects(frames)) && continues == Continues(frames)
  {
    calls, continues := [], false;
    var saying: seq<Text> := [];
    for i := 0 to |frames|
      invariant calls + Pending(saying) == Coalesced(WireEffects(frames[..i])) && !EndsSaying(calls)
      invariant continues == Continues(frames[..i])
    {
      var frame := frames[i];
      assert frames[..i + 1] == frames[..i] + [frame];
      WireSnoc(frames[..i], frame);
      ContinuesSnoc(frames[..i], frame);
      ghost var done := WireEffects(frames[..i]);
      if frame.Delta? && frame.kindIsText && frame.text.Some? {
        SayMore(calls, saying, done, frame.text.value);
        saying := saying + [frame.text.value];
      } else if frame.Card? {
        DoNext(calls, saying, done, ShowCard(frame.card));
        calls, saying := calls + Pending(saying) + [ShowCard(frame.card)], [];
      } else if frame.CardUpdate? {
        DoNext(calls, saying, done, UpdateCard(frame.id, frame.patch));
        calls, saying := calls + Pending(saying) + [UpdateCard(frame.id, frame.patch)], [];
      } else if frame.ToolCall? {
        DoNext(calls, saying, done, ToolEffect(frame.name, frame.arguments));
        calls, saying := calls + Pending(saying) + [ToolEffect(frame.name, frame.arguments)], [];
      } else {
        assert done + [] == done;
        continues := continues || (frame.Done? && frame.toolCall);
      }
    }
    assert frames[..|frames|] == frames;
    calls := calls + Pending(saying);
  }

  method ExpandProxyEntry(script: Turn) returns (links: seq<Turn>)
    ensures links == Expanded(script)
  {
    if PassesThrough(script) {
      return [script];
    }
    var calls, continues := CollectCalls(script.frames);
    if |calls| == 0 {
      return [script];
    }
    links := ToLinks(calls, continues);
  }

  lemma WireSnoc(frames: seq<Frame>, frame: Frame)
    ensures WireEffects(frames + [frame]) == WireEffects(frames) + FrameEffects(frame)
  {
    assert (frames + [frame])[..|frames|] == frames;
  }

  lemma ContinuesSnoc(frames: seq<Frame>, frame: Frame)
    ensures Continues(frames + [frame]) <==> Continues(frames) || (frame.Done? && frame.toolCall)
  {
    var all := frames + [frame];
    assert all[|frames|] == frame;
    if i :| 0 <= i < |frames| && frames[i].Done? && frames[i].toolCall {
      assert all[i] == frames[i];
    }
  }

  // ------------------------------------------------------------------ the translation keeps the meaning

  /** What a person watching sees: every character said and every other act, in order. */
  datatype Seen = Character(unit: Unit) | Act(effect: Effect)

  function Characters(words: Text): seq<Seen> {
    seq(|words|, i requires 0 <= i < |words| => Character(words[i]))
  }

  function Shown(effect: Effect): seq<Seen> {
    if effect.Say? then Characters(effect.words) else [Act(effect)]
  }

  function Transcript(effects: seq<Effect>): seq<Seen> {
    if effects == [] then [] else Transcript(effects[..|effects| - 1]) + Shown(effects[|effects| - 1])
  }

  /** Saying neighbouring words in one breath shows the same. */
  lemma {:induction false} CoalescedShowsTheSame(effects: seq<Effect>)
    ensures Transcript(Coalesced(effects)) == Transcript(effects)
  {
    if effects != [] {
      var rest, last := effects[..|effects| - 1], effects[|effects| - 1];
      var front := Coalesced(rest);
      CoalescedShowsTheSame(rest);
      if last.Say? && EndsSaying(front) {
        var joined := Say(front[|front| - 1].words + last.words);
        assert (front[..|front| - 1] + [joined])[..|front| - 1] == front[..|front| - 1];
        CharactersJoin(Transcript(front[..|front| - 1]), front[|front| - 1].words, last.words);
      } else {
        assert (front + [last])[..|front|] == front;
      }
    }
  }

  lemma CharactersJoin(before: seq<Seen>, a: Text, b: Text)
    ensures before + Characters(a + b) == before + Characters(a) + Characters(b)
  {
  }

  /** No two neighbouring effects are both words, so every link makes one call that had to be its own. */
  lemma {:induction false} CoalescedIsTight(effects: seq<Effect>)
    ensures var r := Coalesced(effects);
            forall i :: 0 < i < |r| ==> !(r[i - 1].Say? && r[i].Say?)
    ensures Coalesced(effects) == [] <==> effects == []
  {
    if effects != [] {
      CoalescedIsTight(effects[..|effects| - 1]);
    }
  }

  /** A link is a call; an untranslated script stands for none. */
  function Effects(links: seq<Turn>): seq<Effect> {
    if links == [] then []
    else
      var last := links[|links| - 1];
      Effects(links[..|links| - 1]) + if last.Link? then [last.effect] else []
  }

  lemma {:induction false} EffectsAt(links: seq<Turn>)
    requires forall i :: 0 <= i < |links| ==> links[i].Link?
    ensures |Effects(links)| == |links|
    ensures forall i :: 0 <= i < |links| ==> Effects(links)[i] == links[i].effect
  {
    if links != [] {
      EffectsAt(links[..|links| - 1]);
    }
  }

  lemma {:induction false} EffectsAdd(a: seq<Turn>, b: seq<Turn>)
    ensures Effects(a + b) == Effects(a) + Effects(b)
    decreases |b|
  {
    if b == [] {
      assert a + b == a;
    } else {
      var front, last := b[..|b| - 1], b[|b| - 1];
      assert (a + b)[..|a + b| - 1] == a + front;
      EffectsAdd(a, front);
      AssociateEffects(Effects(a), Effects(front), if last.Link? then [last.effect] else []);
    }
  }

  lemma AssociateEffects(a: seq<Effect>, b: seq<Effect>, c: seq<Effect>)
    ensures a + b + c == a + (b + c)
  {
  }

  /** A script that is served as links. */
  predicate Translated(script: Turn) {
    !PassesThrough(script) && WireEffects(script.frames) != []
  }

  /** All ask for a successor but the last, which does when `continues` says so. */
  predicate Chained(links: seq<Turn>, continues: bool) {
    && links != []
    && (forall i :: 0 <= i < |links| ==> links[i].Link?)
    && (forall i :: 0 <= i < |links| - 1 ==> links[i].terminal == Continue)
    && (links[|links| - 1].terminal == Continue <==> continues)
  }

  lemma LinksAreChained(effects: seq<Effect>, continues: bool)
    requires effects != []
    ensures Chained(ToLinks(effects, continues), continues) && Effects(ToLinks(effects, continues)) == effects
  {
    var links := ToLinks(effects, continues);
    EffectsAt(links);
  }

  /**
   The links of a translated script show what its frames show, in order, one effect a link, with no
   needless split; all but the last ask for a successor, and the last does exactly when a frame ended
   in a tool call.
   */
  lemma TranslationKeepsMeaning(script: Turn)
    requires Translated(script)
    ensures Chained(Expanded(script), Continues(script.frames))
    ensures Transcript(Effects(Expanded(script))) == Transcript(WireEffects(script.frames))
    ensures |Effects(Expanded(script))| == |Expanded(script)|
    ensures var effects := Effects(Expanded(script));
            forall i :: 0 < i < |effects| ==> !(effects[i - 1].Say? && effects[i].Say?)
  {
    var effects := Coalesced(WireEffects(script.frames));
    CoalescedShowsTheSame(WireEffects(script.frames));
    CoalescedIsTight(WireEffects(script.frames));
    LinksAreChained(effects, Continues(script.frames));
  }

  lemma {:induction false} TranscriptAdds(a: seq<Effect>, b: seq<Effect>)
    ensures Transcript(a + b) == Transcript(a) + Transcript(b)
    decreases |b|
  {
    if b == [] {
      assert a + b == a;
    } else {
      assert (a + b)[..|a + b| - 1] == a + b[..|b| - 1];
      TranscriptAdds(a, b[..|b| - 1]);
      AssociateSeen(Transcript(a), Transcript(b[..|b| - 1]), Shown(b[|b| - 1]));
    }
  }

  lemma AssociateSeen(a: seq<Seen>, b: seq<Seen>, c: seq<Seen>)
    ensures a + b + c == a + (b + c)
  {
  }

  // ------------------------------------------------------------------ what each frame becomes

  /** The call of the catalog an effect is. */
  function CallOf(effect: Effect): (Text, Value) {
    match effect
    case Say(words) => (Lit("say"), Obj([(Lit("text"), Str(words))]))
    case ShowCard(card) => (Lit("card.show"), Obj([(Lit("card"), card)]))
    case UpdateCard(id, patch) => (Lit("card.update"), Obj([(Lit("id"), id), (Lit("patch"), patch)]))
    case Invoke(name, payload) => (name, payload)
  }

  /** A script of one frame and a plain end. */
  function One(frame: Frame, toolCall: bool): Turn {
    Wire([frame, Done(toolCall, None)], false, false, None, false, false)
  }

  /** One link, with this call, that goes on or is the last. */
  predicate IsOneCall(links: seq<Turn>, name: Text, payload: Value, toolCall: bool) {
    && |links| == 1 && links[0].Link?
    && CallOf(links[0].effect) == (name, payload)
    && links[0].terminal == if toolCall then Continue else Finish
  }

  lemma OneFrame(frame: Frame, toolCall: bool, effect: Effect)
    requires IsContent(frame) && !Authored(frame) && FrameEffects(frame) == [effect]
    ensures Expanded(One(frame, toolCall)) == [Link(effect, if toolCall then Continue else Finish)]
  {
    var done := Done(toolCall, None);
    var frames := [frame, done];
    assert frames[..1] == [frame] && [frame][..0] == [];
    assert WireEffects([frame]) == [] + [effect] == [effect];
    assert WireEffects(frames) == [effect] + [] == [effect];
    assert IsContent(frames[0]) && Translatable(frames);
    assert [effect][..0] == [];
    assert Coalesced([effect]) == [effect];
    assert frames[1].Done?;
    assert Continues(frames) <==> toolCall;
  }

  /** A call of `commands` that names a flow calls that flow, with its text arguments if it has any. */
  lemma CommandsCallTheFlow(fields: seq<(Text, Value)>, flow: Text, toolCall: bool)
    requires Canonical.Lookup(fields, Lit("name")) == Str(flow)
    ensures var args := Canonical.Lookup(fields, Lit("args"));
            IsOneCall(
              Expanded(One(ToolCall(Some(Lit("commands")), Parsed(Obj(fields))), toolCall)),
              flow, if args.Str? then Obj([(Lit("args"), args)]) else Obj([]), toolCall)
  {
    var args := Canonical.Lookup(fields, Lit("args"));
    OneFrame(
      ToolCall(Some(Lit("commands")), Parsed(Obj(fields))), toolCall,
      Invoke(flow, if args.Str? then Obj([(Lit("args"), args)]) else Obj([])));
  }

  /** Any other call, and one of `commands` that names no flow, keeps its name and its arguments. */
  lemma OtherCallsAreKept(name: Text, value: Value, toolCall: bool)
    requires name == Lit("commands") ==>
               !value.Null? && (value.Obj? ==> !Canonical.Lookup(value.fields, Lit("name")).Str?)
    ensures IsOneCall(Expanded(One(ToolCall(Some(name), Parsed(value)), toolCall)), name, value, toolCall)
  {
    OneFrame(ToolCall(Some(name), Parsed(value)), toolCall, Invoke(name, value));
  }

  /** A tool without a name is called by the empty one, whatever it is given. */
  lemma NamelessCallsAreKept(value: Value, toolCall: bool)
    ensures IsOneCall(Expanded(One(ToolCall(None, Parsed(value)), toolCall)), [], value, toolCall)
  {
    assert |Lit("commands")| == 8;
    OneFrame(ToolCall(None, Parsed(value)), toolCall, Invoke([], value));
  }

  /** Arguments that are not JSON make an empty payload. */
  lemma MalformedArgumentsAreEmpty(name: Option<Text>, toolCall: bool)
    ensures var named := if name.Some? then name.value else [];
            IsOneCall(Expanded(One(ToolCall(name, Malformed), toolCall)), named, Obj([]), toolCall)
  {
    OneFrame(ToolCall(name, Malformed), toolCall, Invoke(if name.Some? then name.value else [], Obj([])));
  }

  /** So does null, given to `commands`: nothing can be read of it. */
  lemma NullCommandsAreEmpty(toolCall: bool)
    ensures IsOneCall(
              Expanded(One(ToolCall(Some(Lit("commands")), Parsed(Null)), toolCall)),
              Lit("commands"), Obj([]), toolCall)
  {
    OneFrame(ToolCall(Some(Lit("commands")), Parsed(Null)), toolCall, Invoke(Lit("commands"), Obj([])));
  }

  lemma CardsAreShown(card: Value, toolCall: bool)
    ensures IsOneCall(
              Expanded(One(Card(card), toolCall)), Lit("card.show"), Obj([(Lit("card"), card)]), toolCall)
  {
    OneFrame(Card(card), toolCall, ShowCard(card));
  }

  lemma CardsAreUpdated(id: Value, patch: Value, toolCall: bool)
    ensures IsOneCall(
              Expanded(One(CardUpdate(id, patch), toolCall)),
              Lit("card.update"), Obj([(Lit("id"), id), (Lit("patch"), patch)]), toolCall)
  {
    OneFrame(CardUpdate(id, patch), toolCall, UpdateCard(id, patch));
  }

  lemma WordsAreSaid(words: Text, toolCall: bool)
    requires !(Lit("```flow") <= words)
    ensures IsOneCall(
              Expanded(One(Delta(true, Some(words)), toolCall)),
              Lit("say"), Obj([(Lit("text"), Str(words))]), toolCall)
  {
    OneFrame(Delta(true, Some(words)), toolCall, Say(words));
  }

  /** What is seen of the frames one by one: words as they are, anything else as its own script shows it. */
  function SeenApart(frames: seq<Frame>): seq<Seen> {
    if frames == [] then []
    else
      var last := frames[|frames| - 1];
      SeenApart(frames[..|frames| - 1])
      + if last.Delta? then (if last.kindIsText && last.text.Some? then Characters(last.text.value) else [])
        else if IsContent(last) then Transcript(Effects(Expanded(One(last, false))))
        else []
  }

  lemma FrameAlone(frame: Frame)
    requires IsContent(frame) && !frame.Delta?
    ensures Transcript(Effects(Expanded(One(frame, false)))) == Transcript(FrameEffects(frame))
  {
    var effect := FrameEffects(frame)[0];
    OneFrame(frame, false, effect);
    var links := [Link(effect, Finish)];
    assert links[..0] == [] && Effects(links) == [effect];
  }

  lemma {:induction false} WireIsSeenApart(frames: seq<Frame>)
    ensures Transcript(WireEffects(frames)) == SeenApart(frames)
    decreases |frames|
  {
    if frames != [] {
      var front, last := frames[..|frames| - 1], frames[|frames| - 1];
      WireIsSeenApart(front);
      TranscriptAdds(WireEffects(front), FrameEffects(last));
      if last.Delta? {
        if IsSay(last) {
          var said := Say(last.text.value);
          assert [said][..0] == [] && Transcript([said]) == Characters(last.text.value);
        }
      } else if IsContent(last) {
        FrameAlone(last);
      }
    }
  }

  /** The links of a whole script show, one after another, what its frames alone show. */
  lemma FramesAreTranslatedApart(script: Turn)
    requires Translated(script)
    ensures Transcript(Effects(Expanded(script))) == SeenApart(script.frames)
  {
    TranslationKeepsMeaning(script);
    WireIsSeenApart(script.frames);
  }

  lemma {:induction false} SomethingIsDone(frames: seq<Frame>)
    ensures WireEffects(frames) == [] <==>
              forall i :: 0 <= i < |frames| ==> !IsContent(frames[i]) || (frames[i].Delta? && !IsSay(frames[i]))
    decreases |frames|
  {
    if frames != [] {
      var n := |frames| - 1;
      SomethingIsDone(frames[..n]);
      assert forall i :: 0 <= i < n ==> frames[..n][i] == frames[i];
    }
  }

  /** The scripts that are translated; any other is served as it is. */
  lemma TranslatedIff(script: Turn)
    ensures !Translated(script) ==> Expanded(script) == [script]
    ensures Translated(script) <==>
              && script.Wire?
              && !script.raw && !script.paced && script.status.None? && !script.computed
              && script.frames != []
              && (var last := script.frames[|script.frames| - 1];
                  last.Done? && (last.error.None? || last.error.value == []))
              && (forall frame :: frame in script.frames ==> !frame.Error?)
              && (exists frame :: frame in script.frames
                    && (frame.Card? || frame.CardUpdate? || frame.ToolCall?
                        || (frame.Delta? && frame.kindIsText && frame.text.Some?)))
              && (var first := script.frames[0];
                  !(first.Delta? && first.text.Some? && Lit("```flow") <= first.text.value))
  {
    if script.Wire? {
      SomethingIsDone(script.frames);
      CoalescedIsTight(WireEffects(script.frames));
    }
  }

  // ------------------------------------------------------------------ serving the links

  const DEFAULT_SCRIPT: Turn :=
    Wire(
      [Delta(true, Some(Lit("Hi, I'm Smithers (stub upstream)."))),
       Card(Obj([(Lit("id"), Str(Lit("card-status")))])),
       Done(false, None)],
      false, false, None, false, false)

  /** The script a request is answered with: the last one repeats. */
  function Armed(scripts: seq<Turn>, turn: nat): Turn {
    if scripts == [] then DEFAULT_SCRIPT
    else scripts[if turn < |scripts| then turn else |scripts| - 1]
  }

  predicate AllLinks(scripts: seq<Turn>) {
    scripts != [] && forall i :: 0 <= i < |scripts| ==> scripts[i].Link?
  }

  datatype Ending = Finished | OutOfLinks

  /** A run of the chain: what it attempted, the next turn of the double, and how it ended. */
  datatype Played = Played(attempted: seq<Effect>, turn: nat, ending: Ending)

  /**
   The chain against the double from a turn on: each link is authored by one request, an accepted call
   runs on to its link's terminal, and a rejected call aborts its link, after which a successor is
   authored whatever the terminal says.
   */
  function Play(scripts: seq<Turn>, turn: nat, accepted: nat -> bool, budget: nat): Played
    requires AllLinks(scripts)
    decreases budget
  {
    if budget == 0 then Played([], turn, OutOfLinks)
    else
      var link := Armed(scripts, turn);
      if accepted(turn) && link.terminal == Finish then Played([link.effect], turn + 1, Finished)
      else
        var rest := Play(scripts, turn + 1, accepted, budget - 1);
        Played([link.effect] + rest.attempted, rest.turn, rest.ending)
  }

  predicate Ends(scripts: seq<Turn>, accepted: nat -> bool, turn: nat)
    requires AllLinks(scripts)
  {
    Armed(scripts, turn).terminal == Finish && accepted(turn)
  }

  /**
   Every run attempts the armed links in order, one a request, and stops at the first finishing link
   whose call is accepted, or when its links run out.
   */
  lemma {:induction false} PlayAttemptsInOrder(scripts: seq<Turn>, turn: nat, accepted: nat -> bool, budget: nat)
    requires AllLinks(scripts)
    ensures var played := Play(scripts, turn, accepted, budget);
            && played.turn == turn + |played.attempted| && |played.attempted| <= budget
            && (forall i :: turn <= i < played.turn ==> played.attempted[i - turn] == Armed(scripts, i).effect)
            && (forall i :: turn <= i < played.turn - 1 ==> !Ends(scripts, accepted, i))
            && (played.ending.Finished? ==>
                  turn < played.turn && Ends(scripts, accepted, played.turn - 1))
            && (played.ending.OutOfLinks? ==>
                  |played.attempted| == budget && (budget > 0 ==> !Ends(scripts, accepted, played.turn - 1)))
    decreases budget
  {
    if budget > 0 && !Ends(scripts, accepted, turn) {
      PlayAttemptsInOrder(scripts, turn + 1, accepted, budget - 1);
    }
  }

  /**
   Links that continue up to one that finishes: the run performs exactly their effects, each once and
   in order, whatever calls before the last are rejected, and leaves the double at the link after them.
   */
  lemma ServesUpToFinish(scripts: seq<Turn>, turn: nat, last: nat, accepted: nat -> bool, budget: nat)
    requires AllLinks(scripts) && turn <= last < |scripts| && last - turn < budget
    requires forall i :: turn <= i < last ==> scripts[i].terminal == Continue
    requires scripts[last].terminal == Finish && accepted(last)
    ensures Play(scripts, turn, accepted, budget)
         == Played(Effects(scripts[turn..last + 1]), last + 1, Finished)
  {
    PlayAttemptsInOrder(scripts, turn, accepted, budget);
    var played := Play(scripts, turn, accepted, budget);
    assert Ends(scripts, accepted, last);
    assert forall i :: turn <= i < last ==> !Ends(scripts, accepted, i);
    assert played.turn == last + 1 && played.ending.Finished?;
    EffectsAt(scripts[turn..last + 1]);
    var served := scripts[turn..last + 1];
    forall k | 0 <= k < |served|
      ensures played.attempted[k] == Effects(served)[k]
    {
      assert served[k] == scripts[turn + k] == Armed(scripts, turn + k);
      assert played.attempted[turn + k - turn] == Armed(scripts, turn + k).effect;
    }
    assert played.attempted == Effects(served);
  }

  /** Where no link ends the run, the run goes on as one started behind them. */
  lemma {:induction false} RunsOn(scripts: seq<Turn>, turn: nat, n: nat, accepted: nat -> bool, budget: nat)
    requires AllLinks(scripts) && turn + n <= |scripts| && n <= budget
    requires forall i :: turn <= i < turn + n ==> !Ends(scripts, accepted, i)
    ensures var rest := Play(scripts, turn + n, accepted, budget - n);
            Play(scripts, turn, accepted, budget)
            == Played(Effects(scripts[turn..turn + n]) + rest.attempted, rest.turn, rest.ending)
    decreases n
  {
    var rest := Play(scripts, turn + n, accepted, budget - n);
    if n == 0 {
      assert scripts[turn..turn] == [];
      assert Effects([]) + rest.attempted == rest.attempted;
    } else {
      RunsOn(scripts, turn + 1, n - 1, accepted, budget - 1);
      assert !Ends(scripts, accepted, turn) && Armed(scripts, turn) == scripts[turn];
      EffectsFrom(scripts, turn, n, rest.attempted);
    }
  }

  lemma EffectsFrom(scripts: seq<Turn>, turn: nat, n: nat, more: seq<Effect>)
    requires 0 < n && turn + n <= |scripts| && scripts[turn].Link?
    ensures [scripts[turn].effect] + (Effects(scripts[turn + 1..turn + n]) + more)
         == Effects(scripts[turn..turn + n]) + more
  {
    var link, later := scripts[turn], scripts[turn + 1..turn + n];
    assert scripts[turn..turn + n] == [link] + later;
    EffectsAdd([link], later);
    assert [link][..0] == [] && Effects([link]) == [link.effect];
    AssociateEffects([link.effect], Effects(later), more);
  }

  /**
   Past the end of the scripts every attempt is the last link's, until one is accepted or the chain is
   out of links.
   */
  lemma RejectedLastRepeats(scripts: seq<Turn>, turn: nat, accepted: nat -> bool, budget: nat)
    requires AllLinks(scripts) && |scripts| - 1 <= turn && scripts[|scripts| - 1].terminal == Finish
    ensures var played := Play(scripts, turn, accepted, budget);
            && (forall k :: 0 <= k < |played.attempted| ==>
                  played.attempted[k] == scripts[|scripts| - 1].effect)
            && (played.ending.Finished? <==> exists k: nat :: turn <= k < turn + budget && accepted(k))
  {
    PlayAttemptsInOrder(scripts, turn, accepted, budget);
    var played, last := Play(scripts, turn, accepted, budget), scripts[|scripts| - 1];
    forall k | 0 <= k < |played.attempted|
      ensures played.attempted[k] == last.effect
    {
      assert Armed(scripts, turn + k) == last;
      assert played.attempted[turn + k - turn] == Armed(scripts, turn + k).effect;
    }
    assert forall k: nat :: turn <= k ==> (Ends(scripts, accepted, k) <==> accepted(k));
    if played.ending.Finished? {
      assert accepted(played.turn - 1);
    }
  }

  /** One link whose call is never accepted is attempted for as long as there are links. */
  lemma RejectedCallIsNotSkipped(effect: Effect)
    ensures var scripts := [Link(effect, Finish)];
            Play(scripts, 0, _ => false, 2) == Played([effect, effect], 2, OutOfLinks)
  {
    var scripts := [Link(effect, Finish)];
    assert Play(scripts, 2, _ => false, 0) == Played([], 2, OutOfLinks);
    assert Play(scripts, 1, _ => false, 1) == Played([effect], 2, OutOfLinks);
  }

  // ------------------------------------------------------------------ whole scripts

  /** The links of several scripts, one after another. */
  function AllExpanded(entries: seq<Turn>): seq<Turn> {
    if entries == [] then [] else AllExpanded(entries[..|entries| - 1]) + Expanded(entries[|entries| - 1])
  }

  /** What the entries do on the old wire. */
  function AllWireEffects(entries: seq<Turn>): seq<Effect> {
    if entries == [] then []
    else
      var last := entries[|entries| - 1];
      AllWireEffects(entries[..|entries| - 1]) + if last.Wire? then WireEffects(last.frames) else []
  }

  lemma {:induction false} AllExpandedAdds(a: seq<Turn>, b: seq<Turn>)
    ensures AllExpanded(a + b) == AllExpanded(a) + AllExpanded(b)
    decreases |b|
  {
    if b == [] {
      assert a + b == a;
    } else {
      var front, last := b[..|b| - 1], b[|b| - 1];
      assert (a + b)[..|a + b| - 1] == a + front;
      AllExpandedAdds(a, front);
      AssociateTurns(AllExpanded(a), AllExpanded(front), Expanded(last));
    }
  }

  lemma AssociateTurns(a: seq<Turn>, b: seq<Turn>, c: seq<Turn>)
    ensures a + b + c == a + (b + c)
  {
  }

  predicate Continuing(script: Turn) {
    Translated(script) && Continues(script.frames)
  }

  /** Entries of which all but the last end in a tool call, and the last does not. */
  predicate OneMessage(entries: seq<Turn>) {
    && entries != []
    && (forall i :: 0 <= i < |entries| - 1 ==> Continuing(entries[i]))
    && Translated(entries[|entries| - 1]) && !Continuing(entries[|entries| - 1])
  }

  /** Links that all continue, followed by those of one more script. */
  lemma ChainGrows(before: seq<Turn>, links: seq<Turn>, continues: bool)
    requires (before == [] || Chained(before, true)) && Chained(links, continues)
    ensures Chained(before + links, continues)
  {
    var all := before + links;
    assert forall i :: 0 <= i < |before| ==> all[i] == before[i] && all[i].terminal == Continue;
    assert forall i :: |before| <= i < |all| ==> all[i] == links[i - |before|];
  }

  lemma ShownTogether(a: seq<Turn>, b: seq<Turn>, x: seq<Effect>, y: seq<Effect>)
    requires Transcript(Effects(a)) == Transcript(x) && Transcript(Effects(b)) == Transcript(y)
    ensures Transcript(Effects(a + b)) == Transcript(x + y)
  {
    EffectsAdd(a, b);
    TranscriptAdds(Effects(a), Effects(b));
    TranscriptAdds(x, y);
  }

  /** Entries that all end in a tool call become links that all continue. */
  lemma {:induction false} ContinuingEntries(entries: seq<Turn>)
    requires forall i :: 0 <= i < |entries| ==> Continuing(entries[i])
    ensures entries == [] ==> AllExpanded(entries) == []
    ensures entries != [] ==> Chained(AllExpanded(entries), true)
    ensures Transcript(Effects(AllExpanded(entries))) == Transcript(AllWireEffects(entries))
  {
    if entries != [] {
      var front, last := entries[..|entries| - 1], entries[|entries| - 1];
      ContinuingEntries(front);
      TranslationKeepsMeaning(last);
      ChainGrows(AllExpanded(front), Expanded(last), true);
      ShownTogether(AllExpanded(front), Expanded(last), AllWireEffects(front), WireEffects(last.frames));
    }
  }

  /** The links of one message: all continue but the last, and they show what the message does. */
  lemma MessageLinks(entries: seq<Turn>)
    requires OneMessage(entries)
    ensures Chained(AllExpanded(entries), false)
    ensures Transcript(Effects(AllExpanded(entries))) == Transcript(AllWireEffects(entries))
  {
    var front, last := entries[..|entries| - 1], entries[|entries| - 1];
    ContinuingEntries(front);
    TranslationKeepsMeaning(last);
    ChainGrows(AllExpanded(front), Expanded(last), false);
    ShownTogether(AllExpanded(front), Expanded(last), AllWireEffects(front), WireEffects(last.frames));
  }

  /**
   The links of one message among others are served as they would be alone, and the run finishes there,
   exactly when there are links enough and the last call is accepted.
   */
  lemma ChainIsServed(
    all: seq<Turn>, before: seq<Turn>, links: seq<Turn>, after: seq<Turn>,
    accepted: nat -> bool, budget: nat, end: nat)
    requires all == before + links + after && end == |before| + |links|
    requires AllLinks(all) && Chained(links, false)
    ensures Play(all, |before|, accepted, budget) == Played(Effects(links), end, Finished)
       <==> |links| <= budget && 0 < end && accepted(end - 1)
  {
    var last := end - 1;
    assert all[|before|..last + 1] == links;
    assert forall i :: |before| <= i <= last ==> all[i] == links[i - |before|];
    EffectsAt(links);
    FinishesThere(all, |before|, last, accepted, budget);
    if |links| <= budget && accepted(last) {
      ServesUpToFinish(all, |before|, last, accepted, budget);
    }
  }

  /** Finishing behind a link takes that link's call accepted, and a link for each attempt. */
  lemma FinishesThere(scripts: seq<Turn>, turn: nat, last: nat, accepted: nat -> bool, budget: nat)
    requires AllLinks(scripts) && turn <= last
    ensures var played := Play(scripts, turn, accepted, budget);
            played.ending.Finished? && played.turn == last + 1 ==> accepted(last) && last + 1 - turn <= budget
  {
    PlayAttemptsInOrder(scripts, turn, accepted, budget);
  }

  lemma ChainRunsOn(
    all: seq<Turn>, before: seq<Turn>, links: seq<Turn>, after: seq<Turn>,
    accepted: nat -> bool, budget: nat, end: nat)
    requires all == before + links + after && end == |before| + |links|
    requires AllLinks(all) && Chained(links, false)
    requires |links| <= budget && (0 < end ==> !accepted(end - 1))
    ensures var rest := Play(all, end, accepted, budget - |links|);
            Play(all, |before|, accepted, budget) == Played(Effects(links) + rest.attempted, rest.turn, rest.ending)
  {
    var n := |before|;
    assert all[n..end] == links;
    forall i | n <= i < end
      ensures !Ends(all, accepted, i)
    {
      assert all[i] == links[i - n];
    }
    RunsOn(all, n, |links|, accepted, budget);
  }

  lemma ExpandsInThree(before: seq<Turn>, message: seq<Turn>, after: seq<Turn>)
    ensures AllExpanded(before + message + after) == AllExpanded(before) + AllExpanded(message) + AllExpanded(after)
    ensures AllExpanded(before + message) == AllExpanded(before) + AllExpanded(message)
  {
    AllExpandedAdds(before + message, after);
    AllExpandedAdds(before, message);
  }

  /** The run performs exactly these links and ends behind them iff it may: enough links, a last call accepted. */
  ghost predicate IsServed(
    scripts: seq<Turn>, start: nat, links: seq<Turn>, end: nat, accepted: nat -> bool, budget: nat)
  {
    AllLinks(scripts)
    && (Play(scripts, start, accepted, budget) == Played(Effects(links), end, Finished)
        <==> |links| <= budget && 0 < end && accepted(end - 1))
  }

  /** With links enough but its last call rejected, the run performs these links and goes on behind them. */
  ghost predicate RunsPast(
    scripts: seq<Turn>, start: nat, links: seq<Turn>, end: nat, accepted: nat -> bool, budget: nat)
  {
    AllLinks(scripts)
    && (|links| <= budget && 0 < end && !accepted(end - 1) ==>
          var rest := Play(scripts, end, accepted, budget - |links|);
          Play(scripts, start, accepted, budget) == Played(Effects(links) + rest.attempted, rest.turn, rest.ending))
  }

  lemma SegmentIsServed(
    all: seq<Turn>, before: seq<Turn>, links: seq<Turn>, after: seq<Turn>,
    accepted: nat -> bool, budget: nat, end: nat)
    ensures all == before + links + after && end == |before + links| && AllLinks(all) && Chained(links, false) ==>
              && IsServed(all, |before|, links, end, accepted, budget)
              && RunsPast(all, |before|, links, end, accepted, budget)
  {
    if all == before + links + after && end == |before + links| && AllLinks(all) && Chained(links, false) {
      ChainIsServed(all, before, links, after, accepted, budget, end);
      if |links| <= budget && !accepted(end - 1) {
        ChainRunsOn(all, before, links, after, accepted, budget, end);
      }
    }
  }

  /** Whether the links of these entries are one chain that shows what the entries do. */
  ghost predicate IsMessageChain(entries: seq<Turn>) {
    && Chained(AllExpanded(entries), false)
    && Transcript(Effects(AllExpanded(entries))) == Transcript(AllWireEffects(entries))
  }

  lemma MessageIsChain(entries: seq<Turn>)
    ensures OneMessage(entries) ==> IsMessageChain(entries)
  {
    if OneMessage(entries) {
      MessageLinks(entries);
    }
  }

  /**
   A message armed anywhere among others and run from its first link. Its links are one chain and show
   what the message does on the old wire. The run performs exactly those links, in order and once,
   finishes, and leaves the double at the first link of whatever was armed next, exactly when there are
   links enough and the last call is accepted; earlier calls may be rejected at will. When the last call
   is rejected the run goes on, with the links it has left, into what is armed behind the message.
   */
  lemma MessageIsServed(
    before: seq<Turn>, message: seq<Turn>, after: seq<Turn>, accepted: nat -> bool, budget: nat)
    requires OneMessage(message) && AllLinks(AllExpanded(before + message + after))
    ensures IsMessageChain(message)
    ensures var scripts, links := AllExpanded(before + message + after), AllExpanded(message);
            var start, end := |AllExpanded(before)|, |AllExpanded(before + message)|;
            && IsServed(scripts, start, links, end, accepted, budget)
            && RunsPast(scripts, start, links, end, accepted, budget)
  {
    ExpandsInThree(before, message, after);
    MessageIsChain(message);
    SegmentIsServed(
      AllExpanded(before + message + after), AllExpanded(before), AllExpanded(message), AllExpanded(after),
      accepted, budget, |AllExpanded(before + message)|);
  }

  /** Such messages exist: one delta and a plain end. */
  lemma OneDeltaIsAMessage(words: Text)
    requires !(Lit("```flow") <= words)
    ensures OneMessage([Wire([Delta(true, Some(words)), Done(false, None)], false, false, None, false, false)])
  {
    var delta := Delta(true, Some(words));
    var frames := [delta, Done(false, None)];
    assert IsContent(frames[0]);
    assert frames[..1] == [delta] && [delta][..0] == [];
    assert WireEffects([delta]) == [Say(words)];
    assert WireEffects(frames) == [Say(words)];
  }

  // ------------------------------------------------------------------ the double

  datatype Reply = NoCatalog | Canned(status: int) | Streamed(script: Turn)

  class Upstream {
    var scripts: seq<Turn>
    var turn: nat

    /** At boot the default script is armed as it is, not translated. */
    constructor ()
      ensures scripts == [DEFAULT_SCRIPT] && turn == 0
    {
      scripts, turn := [DEFAULT_SCRIPT], 0;
    }

    method SetScript(entries: seq<Turn>)
      modifies this
      ensures scripts == AllExpanded(entries) && turn == 0
    {
      var links: seq<Turn> := [];
      for i := 0 to |entries|
        invariant links == AllExpanded(entries[..i])
      {
        var next := ExpandProxyEntry(entries[i]);
        assert entries[..i + 1][..i] == entries[..i];
        links := links + next;
      }
      assert entries[..|entries|] == entries;
      scripts, turn := links, 0;
    }

    /** One chat request: the armed script is used up even when the request is refused. */
    method Respond(tools: nat, instructions: Text) returns (reply: Reply)
      modifies this`turn
      ensures turn == old(turn) + 1
      ensures var script := Armed(scripts, old(turn));
              && (reply.NoCatalog? <==> (script.Link? || script.requireTools) && tools == 0 && instructions == [])
              && (reply.Streamed? ==> reply.script == script && (script.Wire? ==> script.status.None?))
              && (reply.Canned? ==> script.Wire? && script.status == Some(reply.status))
    {
      var script := Armed(scripts, turn);
      turn := turn + 1;
      var requireTools := script.Link? || script.requireTools;
      if requireTools && tools == 0 && instructions == [] {
        return NoCatalog;
      }
      if script.Wire? && script.status.Some? {
        return Canned(script.status.value);
      }
      reply := Streamed(script);
    }
  }
}
