/** The command palette (canvas/src/canvas/components/Insert.tsx): its state
    `(command, cursor, active, selected)` and the handlers that change it.
    The list of matching commands (`getMatchedCommands(command)`) and the
    command runner are not part of this model: the matches are a parameter of
    the handlers that read them, and what `run` answers is a parameter of
    Enter. */
module InsertPalette {
  import opened Canvas

  datatype Pos = Pos(x: int, y: int)

  /** A matched command as the palette lists it. */
  datatype Preview = Preview(prefix: string, name: string)

  datatype PaletteState = PaletteState(command: string, cursor: Option<Pos>, active: bool, selected: int)

  /** A call of the command runner: the entry at `selected` (`None` when
      `matches[selected]` is `undefined`) and the cursor position. */
  datatype RunCall = RunCall(preview: Option<Preview>, position: Pos)

  function Initial(): PaletteState {
    PaletteState("", None, false, 0)
  }

  /** The palette is drawn only with a known cursor while active. */
  predicate Visible(s: PaletteState) {
    s.cursor.Some? && s.active
  }

  /** The "/" hotkey. */
  function Toggled(s: PaletteState): PaletteState {
    s.(active := !s.active)
  }

  /** The `mousemove` listener. */
  function MovedTo(s: PaletteState, p: Pos): PaletteState {
    s.(cursor := Some(p))
  }

  /** `hide`: deactivate and clear the text. */
  function Hidden(s: PaletteState): PaletteState {
    s.(active := false, command := "")
  }

  /** Editing the text. */
  function Edited(s: PaletteState, text: string): PaletteState {
    s.(command := text, selected := 0)
  }

  function Min(a: int, b: int): int { if a <= b then a else b }
  function Max(a: int, b: int): int { if a >= b then a else b }

  /** ArrowDown, with `count` matches. */
  function SelectNext(s: PaletteState, count: nat): PaletteState {
    s.(selected := Min(s.selected + 1, count - 1))
  }

  /** ArrowUp. */
  function SelectPrevious(s: PaletteState): PaletteState {
    s.(selected := Max(s.selected - 1, 0))
  }

  /** `matches[selected]`. */
  function Chosen(s: PaletteState, matches: seq<Preview>): Option<Preview> {
    if 0 <= s.selected < |matches| then Some(matches[s.selected]) else None
  }

  /** Enter: nothing without matches; otherwise run the selected entry and
      hide when the runner reports success. */
  function Entered(s: PaletteState, matches: seq<Preview>, ok: bool): (r: (PaletteState, seq<RunCall>))
    requires Visible(s)
    ensures |r.1| <= 1 && (r.1 == [] <==> |matches| == 0)
    ensures r.0.selected == s.selected && r.0.cursor == s.cursor
  {
    if |matches| == 0 then (s, [])
    else ((if ok then Hidden(s) else s), [RunCall(Chosen(s, matches), s.cursor.value)])
  }

  class Palette {
    var command: string
    var cursor: Option<Pos>
    var active: bool
    var selected: int
    /** The calls made to the command runner. */
    var runs: seq<RunCall>

    function State(): PaletteState
      reads this
    {
      PaletteState(command, cursor, active, selected)
    }

    constructor()
      ensures State() == Initial() && runs == []
    {
      command := "";
      cursor := None;
      active := false;
      selected := 0;
      runs := [];
    }

    method Toggle()
      modifies this
      ensures State() == Toggled(old(State())) && runs == old(runs)
    {
      active := !active;
    }

    method MouseMove(p: Pos)
      modifies this
      ensures State() == MovedTo(old(State()), p) && runs == old(runs)
    {
      cursor := Some(p);
    }

    method ChangeText(text: string)
      modifies this
      ensures State() == Edited(old(State()), text) && runs == old(runs)
    {
      selected := 0;
      command := text;
    }

    method ArrowDown(matches: seq<Preview>)
      modifies this
      ensures State() == SelectNext(old(State()), |matches|) && runs == old(runs)
    {
      selected := Min(selected + 1, |matches| - 1);
    }

    method ArrowUp()
      modifies this
      ensures State() == SelectPrevious(old(State())) && runs == old(runs)
    {
      selected := Max(selected - 1, 0);
    }

    method Hide()
      modifies this
      ensures State() == Hidden(old(State())) && runs == old(runs)
    {
      active := false;
      command := "";
    }

    method Enter(matches: seq<Preview>, ok: bool)
      requires Visible(State())
      modifies this
      ensures State() == Entered(old(State()), matches, ok).0
      ensures runs == old(runs) + Entered(old(State()), matches, ok).1
    {
      if |matches| == 0 {
        return;
      }
      var preview := if 0 <= selected < |matches| then Some(matches[selected]) else None;
      runs := runs + [RunCall(preview, cursor.value)];
      if ok {
        Hide();
      }
    }

    method Escape()
      modifies this
      ensures State() == Hidden(old(State())) && runs == old(runs)
    {
      Hide();
    }
  }

  // ----- lemmas -------------------------------------------------------------

  /** With `n` matches, ArrowDown moves the selection down by one but never
      past the last entry, ArrowUp up by one but never above the first; a
      selection inside the list stays inside it. */
  lemma ArrowKeys(s: PaletteState, n: nat)
    ensures SelectNext(s, n).selected <= n - 1
    ensures s.selected + 1 <= n - 1 ==> SelectNext(s, n).selected == s.selected + 1
    ensures SelectPrevious(s).selected >= 0
    ensures s.selected >= 1 ==> SelectPrevious(s).selected == s.selected - 1
    ensures 0 <= s.selected < n ==> 0 <= SelectNext(s, n).selected < n && 0 <= SelectPrevious(s).selected < n
    ensures SelectNext(s, n).(selected := s.selected) == s && SelectPrevious(s).(selected := s.selected) == s
  {
  }

  /** With no matches, ArrowDown selects -1. */
  lemma ArrowDownWithoutMatches(s: PaletteState)
    requires s.selected >= -1
    ensures SelectNext(s, 0).selected == -1
  {
  }

  /** Editing the text selects the first entry. */
  lemma TextResetsSelection(s: PaletteState, text: string)
    ensures Edited(s, text).selected == 0 && Edited(s, text).command == text
    ensures Edited(s, text).active == s.active && Edited(s, text).cursor == s.cursor
  {
  }

  /** Enter does nothing without matches; otherwise it runs the selected
      entry once, at the cursor, and hides exactly when that succeeded. */
  lemma EnterRunsSelected(s: PaletteState, matches: seq<Preview>, ok: bool)
    requires Visible(s)
    ensures |matches| == 0 ==> Entered(s, matches, ok) == (s, [])
    ensures |matches| > 0 ==>
      var (t, calls) := Entered(s, matches, ok);
      |calls| == 1 && calls[0].position == s.cursor.value &&
      (0 <= s.selected < |matches| ==> calls[0].preview == Some(matches[s.selected])) &&
      (t.active <==> !ok) && (ok ==> t == Hidden(s)) && (!ok ==> t == s)
  {
  }

  /** Escape hides the palette and clears the text but keeps the selection,
      so a selection that was inside the list need not be inside the list
      the cleared text matches. */
  lemma EscapeKeepsSelection(s: PaletteState, before: seq<Preview>, after: seq<Preview>)
    requires 0 <= s.selected < |before| && |after| <= s.selected
    ensures Hidden(s).selected == s.selected && !Hidden(s).active && Hidden(s).command == ""
    ensures Chosen(Hidden(s), after) == None
  {
  }

  /** The hotkey flips visibility back and forth; without a cursor the
      palette is never drawn. */
  lemma ToggleAndVisibility(s: PaletteState)
    ensures Toggled(Toggled(s)) == s
    ensures s.cursor.Some? ==> (Visible(Toggled(s)) <==> !Visible(s))
    ensures s.cursor.None? ==> !Visible(s) && !Visible(Toggled(s))
  {
  }
}
