/** The unified output format of the `diff` utility (IEEE Std 1003.1-2017, "Diff -u or -U Output Format"): how
    a patch is written down, and what it does to a file. */
module UnifiedDiff {
  import opened Outcomes
  import Decimal

  datatype BodyLine = Context(text: string) | Remove(text: string) | Add(text: string) | Marker(text: string)

  /** `oldShort` and `newShort` leave out a length of one, as the format allows. */
  datatype Hunk = Hunk(oldStart: nat, newStart: nat, oldShort: bool, newShort: bool, heading: string,
                       body: seq<BodyLine>)

  datatype Patch = Patch(preamble: seq<string>, hunks: seq<Hunk>)

  function OldSide(body: seq<BodyLine>): seq<string> {
    if body == [] then []
    else (if body[0].Context? || body[0].Remove? then [body[0].text] else []) + OldSide(body[1..])
  }

  function NewSide(body: seq<BodyLine>): seq<string> {
    if body == [] then []
    else (if body[0].Context? || body[0].Add? then [body[0].text] else []) + NewSide(body[1..])
  }

  // ----- how a patch is written -----

  function RenderRange(start: nat, length: nat, short: bool): string {
    Decimal.Print(start) + (if short && length == 1 then "" else "," + Decimal.Print(length))
  }

  function HeaderFront(h: Hunk): string {
    "@@ -" + RenderRange(h.oldStart, |OldSide(h.body)|, h.oldShort)
    + " +" + RenderRange(h.newStart, |NewSide(h.body)|, h.newShort) + " @@"
  }

  function RenderHeader(h: Hunk): string {
    HeaderFront(h) + h.heading
  }

  function RenderLine(line: BodyLine): string {
    match line
    case Context(text) => " " + text
    case Remove(text) => "-" + text
    case Add(text) => "+" + text
    case Marker(text) => "\\" + text
  }

  function RenderBody(body: seq<BodyLine>): seq<string> {
    if body == [] then [] else [RenderLine(body[0])] + RenderBody(body[1..])
  }

  function RenderHunks(hunks: seq<Hunk>): seq<string> {
    if hunks == [] then []
    else [RenderHeader(hunks[0])] + RenderBody(hunks[0].body) + RenderHunks(hunks[1..])
  }

  function Render(patch: Patch): seq<string> {
    patch.preamble + RenderHunks(patch.hunks)
  }

  // ----- what a patch means -----

  /** How many lines of the file come before the hunk: an empty old side is numbered by the line it follows. */
  function Before(h: Hunk): int {
    if OldSide(h.body) == [] then h.oldStart else h.oldStart - 1
  }

  /** One pass over a hunk: context and removed lines must be the file's next lines; context and added lines
      are written. */
  function ApplyBody(file: seq<string>, at: nat, body: seq<BodyLine>): Option<(seq<string>, nat)>
    requires at <= |file|
    ensures ApplyBody(file, at, body).Some? ==> ApplyBody(file, at, body).value.1 <= |file|
    decreases |body|
  {
    if body == [] then Some(([], at))
    else
      match body[0]
      case Context(text) =>
        if at == |file| || file[at] != text then None
        else (match ApplyBody(file, at + 1, body[1..])
              case None => None
              case Some((written, after)) => Some(([text] + written, after)))
      case Remove(text) =>
        if at == |file| || file[at] != text then None else ApplyBody(file, at + 1, body[1..])
      case Add(text) =>
        (match ApplyBody(file, at, body[1..])
         case None => None
         case Some((written, after)) => Some(([text] + written, after)))
      case Marker(_) => ApplyBody(file, at, body[1..])
  }

  /** The file from line `at` on, patched; nothing if a hunk is out of order or does not match. */
  function ApplyFrom(file: seq<string>, at: nat, hunks: seq<Hunk>): Option<seq<string>>
    requires at <= |file|
    decreases |hunks|
  {
    if hunks == [] then Some(file[at..])
    else
      var start := Before(hunks[0]);
      if !(at <= start <= |file|) then None
      else
        match ApplyBody(file, start, hunks[0].body)
        case None => None
        case Some((written, after)) =>
          match ApplyFrom(file, after, hunks[1..])
          case None => None
          case Some(tail) => Some(file[at..start] + written + tail)
  }

  function Apply(file: seq<string>, patch: Patch): Option<seq<string>> {
    ApplyFrom(file, 0, patch.hunks)
  }

  lemma HeadAndTail(file: seq<string>, at: nat, head: string, rest: seq<string>)
    requires at < |file|
    ensures var n := |rest|;
            at + 1 + n <= |file| ==>
              (file[at..at + 1 + n] == [head] + rest <==> file[at] == head && file[at + 1..at + 1 + n] == rest)
  {
    var n := |rest|;
    if at + 1 + n <= |file| {
      assert file[at..at + 1 + n] == [file[at]] + file[at + 1..at + 1 + n];
      assert ([head] + rest)[1..] == rest;
      assert ([file[at]] + file[at + 1..at + 1 + n])[1..] == file[at + 1..at + 1 + n];
    }
  }

  /** What a hunk does when its old side matches the file from line `at` on, and otherwise. */
  function Replace(file: seq<string>, at: nat, old': seq<string>, new': seq<string>): Option<(seq<string>, nat)>
    requires at <= |file|
  {
    if at + |old'| <= |file| && file[at..at + |old'|] == old' then Some((new', at + |old'|)) else None
  }

  lemma KeptLine(file: seq<string>, at: nat, body: seq<BodyLine>)
    requires at < |file| && body != [] && (body[0].Context? || body[0].Remove?)
    requires ApplyBody(file, at + 1, body[1..]) == Replace(file, at + 1, OldSide(body[1..]), NewSide(body[1..]))
    ensures ApplyBody(file, at, body) == Replace(file, at, OldSide(body), NewSide(body))
  {
    HeadAndTail(file, at, body[0].text, OldSide(body[1..]));
    assert OldSide(body) == [body[0].text] + OldSide(body[1..]);
    assert NewSide(body) == (if body[0].Context? then [body[0].text] else []) + NewSide(body[1..]);
    assert [] + NewSide(body[1..]) == NewSide(body[1..]);
  }

  lemma AddedLine(file: seq<string>, at: nat, body: seq<BodyLine>)
    requires at <= |file| && body != [] && body[0].Add?
    requires ApplyBody(file, at, body[1..]) == Replace(file, at, OldSide(body[1..]), NewSide(body[1..]))
    ensures ApplyBody(file, at, body) == Replace(file, at, OldSide(body), NewSide(body))
  {
    assert OldSide(body) == OldSide(body[1..]);
    assert NewSide(body) == [body[0].text] + NewSide(body[1..]);
  }

  lemma MarkerLine(file: seq<string>, at: nat, body: seq<BodyLine>)
    requires at <= |file| && body != [] && body[0].Marker?
    ensures ApplyBody(file, at, body) == ApplyBody(file, at, body[1..])
    ensures OldSide(body) == OldSide(body[1..]) && NewSide(body) == NewSide(body[1..])
  {
  }

  /** A hunk that matches replaces its old side by its new side. */
  lemma {:induction false} BodyReplacesOldByNew(file: seq<string>, at: nat, body: seq<BodyLine>)
    requires at <= |file|
    ensures ApplyBody(file, at, body) == Replace(file, at, OldSide(body), NewSide(body))
    decreases |body|
  {
    if body == [] {
      assert file[at..at] == [];
    } else if body[0].Context? || body[0].Remove? {
      if at < |file| {
        BodyReplacesOldByNew(file, at + 1, body[1..]);
        KeptLine(file, at, body);
      }
    } else {
      BodyReplacesOldByNew(file, at, body[1..]);
      if body[0].Add? {
        AddedLine(file, at, body);
      } else {
        MarkerLine(file, at, body);
      }
    }
  }

  lemma SidesOfOneAdded(text: string)
    ensures OldSide([Add(text)]) == [] && NewSide([Add(text)]) == [text]
  {
    assert [Add(text)][1..] == [];
  }
}
