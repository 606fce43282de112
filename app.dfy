/**
 * The dashboard's selection state (src/app.rs): which provider card is
 * highlighted, the help overlay flag and the status line. The provider
 * names are an input: the providers of the current ledger in summary order.
 */
module AppState {
  import opened Wrappers

  predicate Distinct(s: seq<string>) {
    forall i, j :: 0 <= i < j < |s| ==> s[i] != s[j]
  }

  /** `Iterator::position`: the first index holding `name`. */
  function Position(names: seq<string>, name: string): (r: Option<nat>)
    ensures r.None? <==> name !in names
    ensures r.Some? ==> r.value < |names| && names[r.value] == name
    ensures r.Some? ==> forall j :: 0 <= j < r.value ==> names[j] != name
    decreases |names|
  {
    if names == [] then None
    else if names[0] == name then Some(0)
    else
      match Position(names[1..], name)
      case None => None
      case Some(k) => Some(k + 1)
  }

  lemma PositionOfDistinct(names: seq<string>, i: nat)
    requires Distinct(names) && i < |names|
    ensures Position(names, names[i]) == Some(i)
  {
  }

  /** The index the cursor starts from: the selection's position, or 0 when it is missing or unknown. */
  function CurrentIndex(selected: Option<string>, names: seq<string>): (k: nat)
    ensures names != [] ==> k < |names|
    ensures selected.Some? && selected.value in names ==> names[k] == selected.value
    ensures selected.None? || selected.value !in names ==> k == 0
  {
    if selected.None? then 0 else Position(names, selected.value).GetOr(0)
  }

  /** The selection after the provider list changed. */
  function SyncedSelection(selected: Option<string>, names: seq<string>): (r: Option<string>)
    ensures names == [] ==> r.None?
    ensures names != [] ==> r.Some? && r.value in names
    ensures selected.Some? && selected.value in names ==> r == selected
    ensures names != [] && (selected.None? || selected.value !in names) ==> r == Some(names[0])
  {
    if names == [] then None
    else if selected.Some? && selected.value in names then selected
    else Some(names[0])
  }

  function NextSelection(selected: Option<string>, names: seq<string>): (r: Option<string>)
    ensures names == [] <==> r.None?
    ensures names != [] ==> r.value in names
  {
    if names == [] then None
    else Some(names[(CurrentIndex(selected, names) + 1) % |names|])
  }

  function PrevSelection(selected: Option<string>, names: seq<string>): (r: Option<string>)
    ensures names == [] <==> r.None?
    ensures names != [] ==> r.value in names
  {
    if names == [] then None
    else
      var current := CurrentIndex(selected, names);
      Some(names[if current == 0 then |names| - 1 else current - 1])
  }

  /** The selection moves one card right, wrapping from the last card to the first. */
  lemma NextMovesRight(names: seq<string>, i: nat)
    requires Distinct(names) && i < |names|
    ensures NextSelection(Some(names[i]), names) == Some(names[if i + 1 == |names| then 0 else i + 1])
  {
    PositionOfDistinct(names, i);
    if i + 1 < |names| {
      ModBelow(i + 1, |names|);
    } else {
      ModSelf(|names|);
    }
  }

  /** The selection moves one card left, wrapping from the first card to the last. */
  lemma PrevMovesLeft(names: seq<string>, i: nat)
    requires Distinct(names) && i < |names|
    ensures PrevSelection(Some(names[i]), names) == Some(names[if i == 0 then |names| - 1 else i - 1])
  {
    PositionOfDistinct(names, i);
  }

  /** A missing or unknown selection counts as the first card, so "next" lands on the second. */
  lemma NextFromUnknown(selected: Option<string>, names: seq<string>)
    requires names != []
    requires selected.None? || selected.value !in names
    ensures NextSelection(selected, names) == Some(names[1 % |names|])
    ensures PrevSelection(selected, names) == Some(names[|names| - 1])
  {
  }

  /** "Previous" undoes "next", and "next" undoes "previous", for a selected card. */
  lemma PrevUndoesNext(names: seq<string>, name: string)
    requires Distinct(names) && name in names
    ensures PrevSelection(NextSelection(Some(name), names), names) == Some(name)
    ensures NextSelection(PrevSelection(Some(name), names), names) == Some(name)
  {
    var i := Position(names, name).value;
    NextMovesRight(names, i);
    PrevMovesLeft(names, i);
    var n := if i + 1 == |names| then 0 else i + 1;
    var p := if i == 0 then |names| - 1 else i - 1;
    PrevMovesLeft(names, n);
    NextMovesRight(names, p);
  }

  lemma ModBelow(a: int, n: int)
    requires 0 <= a < n
    ensures a % n == a
  {
  }

  lemma ModSelf(n: int)
    requires 0 < n
    ensures n % n == 0
  {
  }

  const HelpOpened := "Help opened"
  const HelpClosed := "Help closed"

  class App {
    var selectedProvider: Option<string>
    var status: string
    var showHelp: bool

    /** Only sets up the record the selection methods act on; `App::new`'s loading is not modelled. */
    constructor (status: string)
      ensures selectedProvider.None? && this.status == status && !showHelp
    {
      selectedProvider := None;
      this.status := status;
      showHelp := false;
    }

    method SyncSelectedProvider(names: seq<string>)
      modifies this`selectedProvider
      ensures selectedProvider == SyncedSelection(old(selectedProvider), names)
    {
      if names == [] {
        selectedProvider := None;
        return;
      }
      if selectedProvider.Some? && selectedProvider.value in names {
        return;
      }
      selectedProvider := Some(names[0]);
    }

    method SelectNextProvider(names: seq<string>)
      modifies this`selectedProvider
      ensures selectedProvider == NextSelection(old(selectedProvider), names)
    {
      if names == [] {
        selectedProvider := None;
        return;
      }
      var current := if selectedProvider.None? then 0 else Position(names, selectedProvider.value).GetOr(0);
      var next := (current + 1) % |names|;
      selectedProvider := Some(names[next]);
    }

    method SelectPrevProvider(names: seq<string>)
      modifies this`selectedProvider
      ensures selectedProvider == PrevSelection(old(selectedProvider), names)
    {
      if names == [] {
        selectedProvider := None;
        return;
      }
      var current := if selectedProvider.None? then 0 else Position(names, selectedProvider.value).GetOr(0);
      var prev := if current == 0 then |names| - 1 else current - 1;
      selectedProvider := Some(names[prev]);
    }

    method ToggleHelp()
      modifies this`showHelp, this`status
      ensures showHelp == !old(showHelp)
      ensures status == (if showHelp then HelpOpened else HelpClosed)
    {
      showHelp := !showHelp;
      status := if showHelp then HelpOpened else HelpClosed;
    }
  }

  /** Opening and closing the help overlay leaves the flag as it was and the status at "Help closed" or "Help opened" accordingly. */
  method ToggleHelpTwice(app: App)
    modifies app`showHelp, app`status
    ensures app.showHelp == old(app.showHelp)
    ensures app.status == (if app.showHelp then HelpOpened else HelpClosed)
  {
    app.ToggleHelp();
    app.ToggleHelp();
  }
}
