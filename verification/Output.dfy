/** What a scan prints, said of the events in its log: the descriptions of the matches in their order,
    with what goes between them (src/softmagic.c). */
module Output {
  import opened Wrappers
  import opened Entries
  import opened Magic

  // ---------- the page ----------

  /** Where the page stands: whether something has been printed in this group, whether a blank is due,
      whether this is the first line, and whether this list has printed anything. */
  datatype Mood = Mood(printed: bool, spaced: bool, first: bool, ret: bool)

  datatype Shown = Shown(text: string, mood: Mood)

  function MoodOf(s: State): Mood { Mood(s.printed, s.needSep, s.firstLine, s.ret) }

  /** A match gives something if it has a description, or if the scan it started found something. */
  predicate GivesSomething(ev: Event) { ev.fired && (ev.e.desc != "" || ev.finds) }

  ghost predicate SomeGives(l: seq<Event>) { exists n :: 0 <= n < |l| && GivesSomething(l[n]) }

  /** What goes in front of a description. The first of a group is set off from the groups before;
      among continuations there is a blank unless the description itself says no. */
  function Gap(top: bool, tight: bool, m: Mood): string {
    (if !m.first && (top || !m.printed) then "\n- " else "") + (if !top && m.spaced && !tight then " " else "")
  }

  /** A name, a used list and an indirect scan have no text of their own. */
  function Text(w: World, ev: Event): string {
    if ev.e.kind.Name? || ev.e.kind.Use? || ev.e.kind.Indirect? then "" else w.text(ev.e, ev.c, ev.at)
  }

  /** The end of a group of continuations. Behind one that has found something the next is set off, and
      begins afresh unless the scan stops there. */
  function Close(m: Mood, found: bool, stops: bool): Mood {
    if found && !stops then m.(printed := false, first := false)
    else if m.printed then m.(first := false)
    else m
  }

  /** What a test writes, and then the description if there was a match. */
  function ShowEvent(w: World, ev: Event, m: Mood): Shown
    decreases ev
  {
    var a := ShowInner(w, ev.e, ev.c, ev.inner, m);
    if ev.fired && ev.e.desc != "" && !w.noDesc then
      Shown(a.text + Gap(ev.top, ev.e.noSpace, a.mood) + Text(w, ev),
            a.mood.(printed := true, spaced := true, ret := true))
    else a
  }

  /** The scan that a test starts. A used list goes on with the page; a blank that it has not needed is
      still due. The page of an indirect scan counts only if it gives a result. */
  function ShowInner(w: World, e: Entry, c: Context, inner: Inner, m: Mood): Shown
    decreases inner
  {
    match inner
    case Nothing => Shown("", m)
    case Named => Shown(if w.noDesc then "" else e.desc, m)
    case Used(_, _, l) =>
      var a := ShowFrom(w, l, m.(spaced := m.spaced && !e.noSpace), false, false);
      Shown(a.text, if a.mood.ret then a.mood else a.mood.(spaced := m.spaced))
    case Part(from, ls) =>
      var a := ShowLists(w, ls, m.(ret := false));
      Shown(if a.mood.ret then (if w.noDesc then "" else w.text(e, c, from)) + a.text else "",
            a.mood.(ret := m.ret || a.mood.ret))
  }

  /** Lists one after the other. */
  function ShowLists(w: World, ls: seq<Log>, m: Mood): Shown
    decreases ls
  {
    if ls == [] then Shown("", m)
    else
      var a := ShowFrom(w, ls[0].events, m.(ret := false), false, false);
      var b := ShowLists(w, ls[1..], a.mood);
      Shown(a.text + b.text, b.mood)
  }

  /** A list: found says whether it has found anything, and open whether we are in a group, which ends
      with the next entry at the top or with the list. */
  function ShowFrom(w: World, l: seq<Event>, m: Mood, found: bool, open: bool): Shown
    decreases l
  {
    if l == [] then Shown("", if open then Close(m, found, !w.all) else m)
    else
      var a := ShowEvent(w, l[0], if open && l[0].top then Close(m, found, false) else m);
      var b := ShowFrom(w, l[1..], a.mood, found || GivesSomething(l[0]),
                        if l[0].top then l[0].fired && l[0].end.Some? else open);
      Shown(a.text + b.text, b.mood)
  }

  /** Events of one group. */
  function ShowAll(w: World, l: seq<Event>, m: Mood): Shown
    decreases l
  {
    if l == [] then Shown("", m)
    else
      var a := ShowEvent(w, l[0], m);
      var b := ShowAll(w, l[1..], a.mood);
      Shown(a.text + b.text, b.mood)
  }
}
