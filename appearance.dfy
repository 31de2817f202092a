/**
  * How a FormTextField decides which colours it shows.
  *
  * The field shows one triple of colours at a time (its layer's background and border colours and
  * its text colour). Six triples are configured, one for each value of the enabled, valid and
  * active axes. Each state change repaints the field with the triple of the axis that changed, so
  * there is no merged precedence between the axes: the most recent writer wins.
  */
module Appearance {

  /** The three colours shown at once: layer background, layer border, text. */
  datatype Triple<C> = Triple(background: C, border: C, text: C)

  /** Which colour of a triple a configuration property sets. */
  datatype Part = Background | Border | Text

  /** The six configured triples, one per axis value. */
  datatype Role = Enabled | Disabled | Valid | Invalid | Active | Inactive

  datatype Palette<C> = Palette(
    enabled: Triple<C>, disabled: Triple<C>,
    valid: Triple<C>, invalid: Triple<C>,
    active: Triple<C>, inactive: Triple<C>)

  function ColorOf<C>(t: Triple<C>, part: Part): (c: C) {
    match part
    case Background => t.background
    case Border => t.border
    case Text => t.text
  }

  function Get<C>(p: Palette<C>, role: Role): (t: Triple<C>) {
    match role
    case Enabled => p.enabled
    case Disabled => p.disabled
    case Valid => p.valid
    case Invalid => p.invalid
    case Active => p.active
    case Inactive => p.inactive
  }

  /** `t` with one of its colours replaced. */
  function WithColor<C>(t: Triple<C>, part: Part, c: C): (r: Triple<C>)
    ensures ColorOf(r, part) == c
    ensures forall q :: q != part ==> ColorOf(r, q) == ColorOf(t, q)
  {
    match part
    case Background => t.(background := c)
    case Border => t.(border := c)
    case Text => t.(text := c)
  }

  /** Assigning one colour property, e.g. `invalidBorderColor`: that colour changes and no other. */
  function Recolor<C>(p: Palette<C>, role: Role, part: Part, c: C): (r: Palette<C>)
    ensures ColorOf(Get(r, role), part) == c
    ensures forall q :: q != part ==> ColorOf(Get(r, role), q) == ColorOf(Get(p, role), q)
    ensures forall other :: other != role ==> Get(r, other) == Get(p, other)
  {
    match role
    case Enabled => p.(enabled := WithColor(p.enabled, part, c))
    case Disabled => p.(disabled := WithColor(p.disabled, part, c))
    case Valid => p.(valid := WithColor(p.valid, part, c))
    case Invalid => p.(invalid := WithColor(p.invalid, part, c))
    case Active => p.(active := WithColor(p.active, part, c))
    case Inactive => p.(inactive := WithColor(p.inactive, part, c))
  }

  /** The palette a new field starts with: every one of the eighteen colours is the same. */
  function Uniform<C>(c: C): (p: Palette<C>)
    ensures forall role, part :: ColorOf(Get(p, role), part) == c
  {
    var t := Triple(c, c, c);
    Palette(t, t, t, t, t, t)
  }

  /** The triple `updateEnabled` paints. */
  function EnabledColors<C>(p: Palette<C>, enabled: bool): (t: Triple<C>) {
    if enabled then p.enabled else p.disabled
  }

  /** The triple `updateValid` paints. */
  function ValidColors<C>(p: Palette<C>, valid: bool): (t: Triple<C>) {
    if valid then p.valid else p.invalid
  }

  /** The triple `updateActive` paints. */
  function ActiveColors<C>(p: Palette<C>, active: bool): (t: Triple<C>) {
    if active then p.active else p.inactive
  }

  /** Only the enabled and disabled colour properties have an observer that repaints. */
  predicate Repaints(role: Role) {
    role == Enabled || role == Disabled
  }

  /** The events that can change what the field shows. */
  datatype Event<C> =
    | EnabledSet(enabled: bool)                   // `enabled` assigned
    | ValidSet(valid: bool)                       // `valid` assigned
    | FocusChanged(active: bool)                  // editing began (true) or ended (false)
    | ColorSet(role: Role, part: Part, color: C)  // one colour property assigned

  /** The appearance-relevant state of a field. */
  datatype State<C> = State(enabled: bool, valid: bool, palette: Palette<C>, shown: Triple<C>)

  /**
    * One event, applied as the property observers apply it. Whatever is shown afterwards is either
    * what was shown before or one of the six configured triples; only an assignment of `enabled`
    * changes `enabled`, only an assignment of `valid` changes `valid`, and only a colour assignment
    * changes the palette, and then only the triple it names.
    */
  function Step<C>(s: State<C>, e: Event<C>): (next: State<C>)
    ensures next.shown == s.shown || exists role :: next.shown == Get(next.palette, role)
    ensures next.enabled == if e.EnabledSet? then e.enabled else s.enabled
    ensures next.valid == if e.ValidSet? then e.valid else s.valid
    ensures forall role :: !(e.ColorSet? && e.role == role) ==> Get(next.palette, role) == Get(s.palette, role)
  {
    match e
    case EnabledSet(b) =>
      assert EnabledColors(s.palette, b) == Get(s.palette, if b then Enabled else Disabled);
      s.(enabled := b, shown := EnabledColors(s.palette, b))
    case ValidSet(b) =>
      assert ValidColors(s.palette, b) == Get(s.palette, if b then Valid else Invalid);
      s.(valid := b, shown := if s.enabled then ValidColors(s.palette, b) else s.shown)
    case FocusChanged(b) =>
      assert ActiveColors(s.palette, b) == Get(s.palette, if b then Active else Inactive);
      s.(shown := ActiveColors(s.palette, b))
    case ColorSet(role, part, c) =>
      var p := Recolor(s.palette, role, part, c);
      assert EnabledColors(p, s.enabled) == Get(p, if s.enabled then Enabled else Disabled);
      s.(palette := p, shown := if Repaints(role) then EnabledColors(p, s.enabled) else s.shown)
  }

  /** A sequence of events, applied in order. */
  function Run<C>(s: State<C>, events: seq<Event<C>>): (last: State<C>)
    decreases |events|
  {
    if events == [] then s else Run(Step(s, events[0]), events[1..])
  }

  // `Paints` and `Painted` describe one event's effect on the shown triple axis by axis; they exist
  // only so that `LastWriterWins` can name the triple the last painting event wrote.

  /** Whether `e` overwrites the shown triple when it happens in state `s`. */
  predicate Paints<C>(s: State<C>, e: Event<C>) {
    match e
    case EnabledSet(_) => true
    case ValidSet(_) => s.enabled
    case FocusChanged(_) => true
    case ColorSet(role, _, _) => Repaints(role)
  }

  /** The triple a painting event writes, described per axis. */
  function Painted<C>(s: State<C>, e: Event<C>): (t: Triple<C>)
    requires Paints(s, e)
  {
    match e
    case EnabledSet(b) => EnabledColors(s.palette, b)
    case ValidSet(b) => ValidColors(s.palette, b)
    case FocusChanged(b) => ActiveColors(s.palette, b)
    case ColorSet(role, part, c) => EnabledColors(Recolor(s.palette, role, part, c), s.enabled)
  }

  /** An event that, with the field enabled or not as given, neither repaints nor changes `enabled`. */
  predicate Silent<C>(e: Event<C>, enabled: bool) {
    (e.ColorSet? && !Repaints(e.role)) || (e.ValidSet? && !enabled)
  }

  /** Helper for `LastWriterWins`: `Step` writes the triple `Painted` names, or leaves the shown triple alone. */
  lemma StepShows<C>(s: State<C>, e: Event<C>)
    ensures Paints(s, e) ==> Step(s, e).shown == Painted(s, e)
    ensures !Paints(s, e) ==> Step(s, e).shown == s.shown
    ensures Step(s, e).palette == if e.ColorSet? then Recolor(s.palette, e.role, e.part, e.color) else s.palette
  {
  }

  lemma {:induction false} RunAppend<C>(s: State<C>, a: seq<Event<C>>, b: seq<Event<C>>)
    ensures Run(s, a + b) == Run(Run(s, a), b)
    decreases |a|
  {
    if a == [] {
      assert a + b == b;
    } else {
      assert (a + b)[0] == a[0];
      assert (a + b)[1..] == a[1..] + b;
      RunAppend(Step(s, a[0]), a[1..], b);
    }
  }

  /** Silent events change neither what is shown nor whether the field is enabled. */
  lemma {:induction false} SilentRunKeepsDisplay<C>(s: State<C>, events: seq<Event<C>>)
    requires forall i :: 0 <= i < |events| ==> Silent(events[i], s.enabled)
    ensures Run(s, events).shown == s.shown
    ensures Run(s, events).enabled == s.enabled
    decreases |events|
  {
    if events != [] {
      var t := Step(s, events[0]);
      assert Silent(events[0], s.enabled);
      forall i | 0 <= i < |events[1..]|
        ensures Silent(events[1..][i], t.enabled)
      {
        assert events[1..][i] == events[i + 1];
      }
      SilentRunKeepsDisplay(t, events[1..]);
    }
  }

  /**
    * Last writer wins: after any history `before`, a painting event `e` followed only by silent
    * events leaves the field showing the triple `e` wrote, whatever the valid or active state was.
    */
  lemma {:induction false} LastWriterWins<C>(s: State<C>, before: seq<Event<C>>, e: Event<C>, after: seq<Event<C>>)
    requires Paints(Run(s, before), e)
    requires forall i :: 0 <= i < |after| ==> Silent(after[i], Run(s, before + [e]).enabled)
    ensures Run(s, before + [e] + after).shown == Painted(Run(s, before), e)
  {
    RunAppend(s, before, [e]);
    RunAppend(s, before + [e], after);
    var t := Run(s, before + [e]);
    assert t == Step(Run(s, before), e);
    StepShows(Run(s, before), e);
    SilentRunKeepsDisplay(t, after);
  }

  /** Disabling shows the disabled triple, whatever happened before. */
  lemma DisablingShowsDisabled<C>(s: State<C>, before: seq<Event<C>>)
    ensures Run(s, before + [EnabledSet(false)]).shown == Run(s, before).palette.disabled
    ensures !Run(s, before + [EnabledSet(false)]).enabled
  {
    RunAppend(s, before, [EnabledSet(false)]);
  }

  /** Re-enabling shows the enabled triple, whatever happened before. */
  lemma EnablingShowsEnabled<C>(s: State<C>, before: seq<Event<C>>)
    ensures Run(s, before + [EnabledSet(true)]).shown == Run(s, before).palette.enabled
    ensures Run(s, before + [EnabledSet(true)]).enabled
  {
    RunAppend(s, before, [EnabledSet(true)]);
  }

  /** Focus changes paint the active or inactive triple even on a disabled or invalid field. */
  lemma FocusOverridesEverything<C>(s: State<C>, before: seq<Event<C>>, active: bool)
    ensures Run(s, before + [FocusChanged(active)]).shown == ActiveColors(Run(s, before).palette, active)
  {
    RunAppend(s, before, [FocusChanged(active)]);
  }

  /** After disabling, toggling validity any number of times shows no change. */
  lemma {:induction false} DisabledHidesValidity<C>(s: State<C>, toggles: seq<Event<C>>)
    requires forall i :: 0 <= i < |toggles| ==> toggles[i].ValidSet?
    ensures Run(s, [EnabledSet(false)] + toggles).shown == s.palette.disabled
  {
    var none: seq<Event<C>> := [];
    LastWriterWins(s, none, EnabledSet(false), toggles);
    assert none + [EnabledSet(false)] + toggles == [EnabledSet(false)] + toggles;
  }
}
