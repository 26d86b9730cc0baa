/** The runner's account of messages handed over mid-run: runner/interject.py.

    The account and GA share one cell, `intervene`. The functions say what each locked operation
    of the account does to account and cell; the class carries them out in place. */
module Interject {
  import opened Wrappers

  type Id = string

  datatype Item = Item(id: Id, text: string)

  /** A text written since the last step's end, with the ids it holds. */
  datatype Written = Written(text: string, ids: seq<Id>)

  datatype Account = Account(
    unread: seq<Item>,
    preamble: string,
    taken: set<Id>,
    written: seq<Written>,
    dirty: bool)

  /** The account and what `intervene` holds. */
  datatype World = World(account: Account, cell: Option<string>)

  const NEW_ACCOUNT := Account([], "", {}, [], false)

  function Ids(items: seq<Item>): (ids: seq<Id>)
    ensures |ids| == |items|
    ensures forall k | 0 <= k < |items| :: ids[k] == items[k].id
  {
    if items == [] then [] else [items[0].id] + Ids(items[1..])
  }

  function Texts(items: seq<Item>): (texts: seq<string>)
    ensures |texts| == |items|
    ensures forall k | 0 <= k < |items| :: texts[k] == items[k].text
  {
    if items == [] then [] else [items[0].text] + Texts(items[1..])
  }

  /** `"\n\n".join(parts)`. */
  function JoinBlank(parts: seq<string>): string {
    if parts == [] then ""
    else if |parts| == 1 then parts[0]
    else JoinBlank(parts[..|parts| - 1]) + "\n\n" + parts[|parts| - 1]
  }

  /** `compose`: the preamble, then each message, one blank line apart. */
  function Compose(preamble: string, texts: seq<string>): string {
    JoinBlank((if preamble != "" then [preamble] else []) + texts)
  }

  function NotTaken(items: seq<Item>, taken: set<Id>): (kept: seq<Item>)
    ensures forall k | 0 <= k < |kept| :: kept[k].id !in taken
  {
    if items == [] then []
    else (if items[0].id !in taken then [items[0]] else []) + NotTaken(items[1..], taken)
  }

  /** `_arm`. */
  function DoArm(w: World): World {
    var a := w.account;
    if a.unread == [] then
      if a.dirty then World(a.(dirty := false), None) else w
    else
      var text := Compose(a.preamble, Texts(a.unread));
      World(a.(dirty := true, written := a.written + [Written(text, Ids(a.unread))]), Some(text))
  }

  /** `add`. */
  function DoAdd(w: World, items: seq<Item>, preamble: string): (World, seq<Id>) {
    var a := w.account;
    var added := NotTaken(items, a.taken);
    if added == [] then (w, [])
    else
      var more := a.(taken := a.taken + (set id | id in Ids(added)),
                     unread := a.unread + added,
                     preamble := if preamble != "" then preamble else a.preamble);
      (DoArm(w.(account := more)), Ids(added))
  }

  /** The ids of the latest write of `text`. */
  function LatestWith(written: seq<Written>, text: string): seq<Id> {
    if written == [] then []
    else
      var last := written[|written| - 1];
      if last.text == text then last.ids else LatestWith(written[..|written| - 1], text)
  }

  /** What the account takes a step's end to have read. */
  function ReadIds(a: Account, injected: Option<string>, goesOn: bool): seq<Id> {
    if injected.Some? && injected.value != "" && goesOn then LatestWith(a.written, injected.value) else []
  }

  /** `step_ended`. */
  function DoStepEnded(w: World, injected: Option<string>, goesOn: bool): (World, seq<Id>) {
    var a := w.account;
    var read := ReadIds(a, injected, goesOn);
    var kept := if read != [] then NotTaken(a.unread, set id | id in read) else a.unread;
    var after := w.(account := a.(unread := kept, written := []));
    (if goesOn then DoArm(after) else after, read)
  }

  /** `take_unread`. */
  function DoTakeUnread(w: World): (World, seq<Id>) {
    (World(NEW_ACCOUNT, if w.account.dirty then None else w.cell), Ids(w.account.unread))
  }

  /** GA's attribute `intervene`. */
  class GaCell {
    var intervene: Option<string>

    constructor ()
      ensures intervene == None
    {
      intervene := None;
    }
  }

  /** `Interjections`, each method under its lock. */
  class Interjections {
    const cell: GaCell
    var unread: seq<Item>
    var preamble: string
    var taken: set<Id>
    var written: seq<Written>
    var dirty: bool

    ghost function View(): World
      reads this, cell
    {
      World(Account(unread, preamble, taken, written, dirty), cell.intervene)
    }

    constructor (cell: GaCell)
      ensures this.cell == cell && View() == World(NEW_ACCOUNT, cell.intervene)
    {
      this.cell := cell;
      unread, preamble, taken, written, dirty := [], "", {}, [], false;
    }

    method Arm()
      modifies this, cell
      ensures View() == DoArm(old(View()))
    {
      if unread == [] {
        if dirty {
          cell.intervene := None;
          dirty := false;
        }
        return;
      }
      var text := Compose(preamble, Texts(unread));
      cell.intervene := Some(text);
      dirty := true;
      written := written + [Written(text, Ids(unread))];
    }

    method Add(items: seq<Item>, preamble: string) returns (ids: seq<Id>)
      modifies this, cell
      ensures (View(), ids) == DoAdd(old(View()), items, preamble)
    {
      var added := NotTaken(items, taken);
      if added == [] {
        return [];
      }
      taken := taken + (set id | id in Ids(added));
      unread := unread + added;
      if preamble != "" {
        this.preamble := preamble;
      }
      Arm();
      ids := Ids(added);
    }

    /** The loop over `reversed(self._written)`. */
    method FindWritten(injected: string) returns (read: seq<Id>)
      ensures read == LatestWith(written, injected)
    {
      var k := |written|;
      assert written[..k] == written;
      while k > 0
        invariant 0 <= k <= |written|
        invariant LatestWith(written[..k], injected) == LatestWith(written, injected)
      {
        assert written[..k][..k - 1] == written[..k - 1];
        if written[k - 1].text == injected {
          return written[k - 1].ids;
        }
        k := k - 1;
      }
      read := [];
    }

    method StepEnded(injected: Option<string>, goesOn: bool) returns (read: seq<Id>)
      modifies this, cell
      ensures (View(), read) == DoStepEnded(old(View()), injected, goesOn)
    {
      read := [];
      if injected.Some? && injected.value != "" && goesOn {
        read := FindWritten(injected.value);
      }
      if read != [] {
        unread := NotTaken(unread, set id | id in read);
      }
      written := [];
      if goesOn {
        Arm();
      }
    }

    method TakeUnread() returns (ids: seq<Id>)
      modifies this, cell
      ensures (View(), ids) == DoTakeUnread(old(View()))
    {
      ids := Ids(unread);
      unread, written, taken, preamble := [], [], {}, "";
      if dirty {
        cell.intervene := None;
        dirty := false;
      }
    }
  }
}
