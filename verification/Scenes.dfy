/** A recording as a style table and the rows that change (`encode`), and the screens read back from it (`screenAt`). */
module Scenes {
  datatype Style = Style(fg: string, bg: string, bold: bool, italic: bool, underlined: bool)

  const PLAIN := Style("", "", false, false, false)

  /** Some text in one style, as it was captured. */
  datatype Styled = Styled(text: string, style: Style)

  type Line = seq<Styled>

  datatype Shot = Shot(t: nat, lines: seq<Line>)

  /** Some text and the index of its style. */
  datatype Run = Run(text: string, style: nat)

  datatype Row = Row(runs: seq<Run>)

  datatype Frame = Frame(t: nat, rows: seq<(nat, Row)>)

  datatype Scene = Scene(rows: nat, styles: seq<Style>, frames: seq<Frame>)

  /** The one character that the site's font lacks, and what is drawn instead. */
  function Substituted(text: string): (r: string)
    ensures |r| == |text|
  {
    if text == "" then ""
    else Substituted(text[..|text| - 1]) + [if text[|text| - 1] == '\U{23BF}' then '\U{2514}' else text[|text| - 1]]
  }

  /** A line as it is to be seen. */
  function Looks(line: Line): Line {
    if line == [] then []
    else Looks(line[..|line| - 1]) + [Styled(Substituted(line[|line| - 1].text), line[|line| - 1].style)]
  }

  function LooksAll(lines: seq<Line>): (r: seq<Line>)
    ensures |r| == |lines|
  {
    if lines == [] then [] else LooksAll(lines[..|lines| - 1]) + [Looks(lines[|lines| - 1])]
  }

  // ---- reading ----

  function Put(screen: seq<Row>, at: nat, row: Row): seq<Row>
    decreases at - |screen|
  {
    if at < |screen| then screen[at := row]
    else if at == |screen| then screen + [row]
    else Put(screen + [Row([])], at, row)
  }

  function ApplyRows(screen: seq<Row>, rows: seq<(nat, Row)>): seq<Row> {
    if rows == [] then screen
    else Put(ApplyRows(screen, rows[..|rows| - 1]), rows[|rows| - 1].0, rows[|rows| - 1].1)
  }

  /** `applyFrame`. */
  function ApplyFrame(screen: seq<Row>, frame: Frame): seq<Row> {
    ApplyRows(screen, frame.rows)
  }

  function Blank(rows: nat): (r: seq<Row>)
    ensures |r| == rows
  {
    if rows == 0 then [] else Blank(rows - 1) + [Row([])]
  }

  /** `screenAt`: the first so many frames applied in order. */
  function ScreenAfter(rows: nat, frames: seq<Frame>): seq<Row> {
    if frames == [] then Blank(rows) else ApplyFrame(ScreenAfter(rows, frames[..|frames| - 1]), frames[|frames| - 1])
  }

  /** What the table makes of a run. */
  predicate Known(styles: seq<Style>, row: Row) {
    forall k :: 0 <= k < |row.runs| ==> row.runs[k].style < |styles|
  }

  function Drawn(styles: seq<Style>, runs: seq<Run>): Line
    requires forall k :: 0 <= k < |runs| ==> runs[k].style < |styles|
  {
    if runs == [] then []
    else Drawn(styles, runs[..|runs| - 1]) + [Styled(runs[|runs| - 1].text, styles[runs[|runs| - 1].style])]
  }

  /** Rows that draw lines. */
  ghost predicate Draws(styles: seq<Style>, rows: seq<Row>, lines: seq<Line>) {
    && |rows| == |lines|
    && forall k :: 0 <= k < |rows| ==> Known(styles, rows[k]) && Drawn(styles, rows[k].runs) == lines[k]
  }

  lemma {:induction false} DrawnLater(styles: seq<Style>, later: seq<Style>, runs: seq<Run>)
    requires styles <= later && forall k :: 0 <= k < |runs| ==> runs[k].style < |styles|
    ensures Drawn(later, runs) == Drawn(styles, runs)
  {
    if runs != [] {
      DrawnLater(styles, later, runs[..|runs| - 1]);
    }
  }

  lemma DrawsLater(styles: seq<Style>, later: seq<Style>, rows: seq<Row>, lines: seq<Line>)
    requires Draws(styles, rows, lines) && styles <= later
    ensures Draws(later, rows, lines)
  {
    forall k | 0 <= k < |rows|
      ensures Known(later, rows[k]) && Drawn(later, rows[k].runs) == lines[k]
    {
      assert Known(styles, rows[k]);
      DrawnLater(styles, later, rows[k].runs);
    }
  }

  // ---- the rows that change ----

  /** The rows that are not those of before, with their numbers. */
  function Changed(rows: seq<Row>, before: seq<Row>): seq<(nat, Row)> {
    if rows == [] then []
    else
      var n := |rows| - 1;
      Changed(rows[..n], before) + (if n < |before| && before[n] == rows[n] then [] else [(n, rows[n])])
  }

  /** The rows, and what a higher screen holds below them. */
  function Over(rows: seq<Row>, screen: seq<Row>): seq<Row> {
    if |rows| <= |screen| then rows + screen[|rows|..] else rows
  }

  lemma PutOver(rows: seq<Row>, screen: seq<Row>, row: Row)
    ensures Put(Over(rows, screen), |rows|, row) == Over(rows + [row], screen)
  {
    var n := |rows|;
    if n < |screen| {
      SetBehind(rows, screen[n..], row);
      assert screen[n..][1..] == screen[n + 1..];
    } else {
      assert Over(rows, screen) == rows;
    }
  }

  lemma SetBehind(rows: seq<Row>, below: seq<Row>, row: Row)
    requires below != []
    ensures (rows + below)[|rows| := row] == rows + [row] + below[1..]
  {
  }

  lemma SameOver(rows: seq<Row>, screen: seq<Row>, row: Row)
    requires |rows| < |screen| && screen[|rows|] == row
    ensures Over(rows, screen) == Over(rows + [row], screen)
  {
  }

  /** Put on a screen that begins with what was there before, they make it begin with the rows. */
  lemma {:induction false} ChangesApplied(screen: seq<Row>, rows: seq<Row>, before: seq<Row>)
    requires before <= screen
    ensures ApplyRows(screen, Changed(rows, before)) == Over(rows, screen)
  {
    if rows == [] {
      assert [] + screen[0..] == screen;
    } else {
      var n := |rows| - 1;
      var changed := Changed(rows[..n], before);
      ChangesApplied(screen, rows[..n], before);
      assert rows == rows[..n] + [rows[n]];
      if n < |before| && before[n] == rows[n] {
        assert changed + [] == changed;
        SameOver(rows[..n], screen, rows[n]);
      } else {
        assert (changed + [(n, rows[n])])[..|changed|] == changed;
        PutOver(rows[..n], screen, rows[n]);
      }
    }
  }

  /** Nothing changed exactly when the rows are those of before, or the first of them: a shot that only lost lines is dropped as well. */
  lemma {:induction false} NothingChanged(rows: seq<Row>, before: seq<Row>)
    ensures Changed(rows, before) == [] <==> rows <= before
  {
    if rows != [] {
      NothingChanged(rows[..|rows| - 1], before);
      assert rows <= before <==> rows[..|rows| - 1] <= before && |rows| <= |before| && before[|rows| - 1] == rows[|rows| - 1];
    }
  }

  lemma {:induction false} ChangedInRange(rows: seq<Row>, before: seq<Row>)
    ensures forall k :: 0 <= k < |Changed(rows, before)| ==> Changed(rows, before)[k].0 < |rows|
  {
    if rows != [] {
      ChangedInRange(rows[..|rows| - 1], before);
    }
  }

  predicate InRange(frames: seq<Frame>, rows: nat) {
    forall f, k :: 0 <= f < |frames| && 0 <= k < |frames[f].rows| ==> frames[f].rows[k].0 < rows
  }

  lemma InRangeMore(frames: seq<Frame>, t: nat, next: seq<Row>, before: seq<Row>, rows: nat)
    requires InRange(frames, rows) && |next| <= rows
    ensures InRange(frames + [Frame(t, Changed(next, before))], rows)
  {
    ChangedInRange(next, before);
  }

  /** No shot is higher than the first. */
  predicate NoneHigher(shots: seq<Shot>, rows: nat) {
    forall j :: 0 <= j < |shots| ==> |shots[j].lines| <= rows
  }

  lemma {:induction false} RowsInRange(screen: seq<Row>, rows: seq<(nat, Row)>)
    requires forall k :: 0 <= k < |rows| ==> rows[k].0 < |screen|
    ensures |ApplyRows(screen, rows)| == |screen|
  {
    if rows != [] {
      RowsInRange(screen, rows[..|rows| - 1]);
    }
  }

  /** A recording whose shots are all of one height keeps it on every screen. */
  lemma {:induction false} HeightIsKept(rows: nat, frames: seq<Frame>)
    requires InRange(frames, rows)
    ensures |ScreenAfter(rows, frames)| == rows
  {
    if frames != [] {
      var n := |frames| - 1;
      assert InRange(frames[..n], rows);
      HeightIsKept(rows, frames[..n]);
      RowsInRange(ScreenAfter(rows, frames[..n]), frames[n].rows);
    }
  }

  // ---- writing ----

  /** The table: each style once, by the index that the map knows it by. */
  class Table {
    var styles: seq<Style>
    var known: map<Style, nat>

    ghost predicate Valid()
      reads this
    {
      && (forall s :: s in known ==> known[s] < |styles| && styles[known[s]] == s)
      && (forall k :: 0 <= k < |styles| ==> styles[k] in known && known[styles[k]] == k)
      && styles != [] && styles[0] == PLAIN
    }

    constructor ()
      ensures Valid() && styles == [PLAIN]
    {
      styles, known := [PLAIN], map[PLAIN := 0];
    }

    method IndexOf(style: Style) returns (index: nat)
      requires Valid()
      modifies this
      ensures Valid() && old(styles) <= styles && index < |styles| && styles[index] == style
    {
      if style in known {
        return known[style];
      }
      styles := styles + [style];
      known := known[style := |styles| - 1];
      index := |styles| - 1;
    }

    method RowOf(line: Line) returns (row: Row)
      requires Valid()
      modifies this
      ensures Valid() && old(styles) <= styles
      ensures Known(styles, row) && Drawn(styles, row.runs) == Looks(line)
    {
      var runs: seq<Run> := [];
      for k := 0 to |line|
        invariant Valid() && old(styles) <= styles
        invariant Known(styles, Row(runs)) && Drawn(styles, runs) == Looks(line[..k])
      {
        ghost var was := styles;
        var index := IndexOf(line[k].style);
        DrawnLater(was, styles, runs);
        var run := Run(Substituted(line[k].text), index);
        assert (runs + [run])[..|runs|] == runs && line[..k + 1][..k] == line[..k];
        runs := runs + [run];
      }
      assert line[..|line|] == line;
      row := Row(runs);
    }

    method RowsOf(lines: seq<Line>) returns (rows: seq<Row>)
      requires Valid()
      modifies this
      ensures Valid() && old(styles) <= styles && Draws(styles, rows, LooksAll(lines))
    {
      rows := [];
      for k := 0 to |lines|
        invariant Valid() && old(styles) <= styles && Draws(styles, rows, LooksAll(lines[..k]))
      {
        ghost var was := styles;
        var row := RowOf(lines[k]);
        DrawsLater(was, styles, rows, LooksAll(lines[..k]));
        assert lines[..k + 1][..k] == lines[..k];
        rows := rows + [row];
      }
      assert lines[..|lines|] == lines;
    }
  }

  function Rounded(t: nat): nat {
    (t + 5) / 10 * 10
  }

  /** A screen that begins with the lines of a shot. */
  ghost predicate Shows(styles: seq<Style>, screen: seq<Row>, shot: Shot) {
    |shot.lines| <= |screen| && Draws(styles, screen[..|shot.lines|], LooksAll(shot.lines))
  }

  /** Each shot so far is shown by the screen of the frame that stands for it. */
  ghost predicate AllShown(styles: seq<Style>, rows: nat, frames: seq<Frame>, shots: seq<Shot>, stands: seq<nat>) {
    && |stands| == |shots|
    && (shots != [] ==>
          var n := |shots| - 1;
          && 0 < stands[n] <= |frames| && Shows(styles, ScreenAfter(rows, frames[..stands[n]]), shots[n])
          && AllShown(styles, rows, frames, shots[..n], stands[..n]))
  }

  lemma {:induction false} ShownAt(styles: seq<Style>, rows: nat, frames: seq<Frame>, shots: seq<Shot>, stands: seq<nat>, j: nat)
    requires AllShown(styles, rows, frames, shots, stands) && j < |shots|
    ensures 0 < stands[j] <= |frames| && Shows(styles, ScreenAfter(rows, frames[..stands[j]]), shots[j])
    decreases |shots|
  {
    var n := |shots| - 1;
    if j < n {
      ShownAt(styles, rows, frames, shots[..n], stands[..n], j);
    }
  }

  /** The screen of the last frame, which begins with the rows that were written last. */
  predicate Last(rows: nat, frames: seq<Frame>, before: seq<Row>) {
    before <= ScreenAfter(rows, frames)
  }

  lemma FrameAdded(rows: nat, frames: seq<Frame>, before: seq<Row>, next: seq<Row>, t: nat)
    requires Last(rows, frames, before)
    ensures var all := frames + [Frame(t, Changed(next, before))];
            Last(rows, all, next) && |ScreenAfter(rows, all)| == Higher(|ScreenAfter(rows, frames)|, |next|)
  {
    var all := frames + [Frame(t, Changed(next, before))];
    assert all[..|all| - 1] == frames;
    ChangesApplied(ScreenAfter(rows, frames), next, before);
  }

  function Higher(a: nat, b: nat): nat {
    if a < b then b else a
  }

  /** The height of the highest of some shots. */
  function Highest(shots: seq<Shot>): nat {
    if shots == [] then 0 else Higher(Highest(shots[..|shots| - 1]), |shots[|shots| - 1].lines|)
  }

  lemma {:induction false} HighestIs(shots: seq<Shot>, h: nat)
    ensures Highest(shots) <= h <==> forall j :: 0 <= j < |shots| ==> |shots[j].lines| <= h
  {
    if shots != [] {
      var n := |shots| - 1;
      HighestIs(shots[..n], h);
      assert forall j :: 0 <= j < n ==> shots[..n][j] == shots[j];
    }
  }

  /** The screen at which each shot so far stands is as high as the highest up to then. */
  predicate AllHigh(rows: nat, frames: seq<Frame>, shots: seq<Shot>, stands: seq<nat>) {
    && |stands| == |shots|
    && (shots != [] ==>
          var n := |shots| - 1;
          && stands[n] <= |frames| && |ScreenAfter(rows, frames[..stands[n]])| == Higher(rows, Highest(shots))
          && AllHigh(rows, frames, shots[..n], stands[..n]))
  }

  lemma {:induction false} HighAt(rows: nat, frames: seq<Frame>, shots: seq<Shot>, stands: seq<nat>, j: nat)
    requires AllHigh(rows, frames, shots, stands) && j < |shots|
    ensures stands[j] <= |frames| && |ScreenAfter(rows, frames[..stands[j]])| == Higher(rows, Highest(shots[..j + 1]))
    decreases |shots|
  {
    var n := |shots| - 1;
    if j < n {
      HighAt(rows, frames, shots[..n], stands[..n], j);
      assert shots[..n][..j + 1] == shots[..j + 1];
    } else {
      assert shots[..j + 1] == shots;
    }
  }

  lemma {:induction false} HighLater(rows: nat, frames: seq<Frame>, more: seq<Frame>, shots: seq<Shot>, stands: seq<nat>)
    requires AllHigh(rows, frames, shots, stands) && frames <= more
    ensures AllHigh(rows, more, shots, stands)
    decreases |shots|
  {
    if shots != [] {
      var n := |shots| - 1;
      HighLater(rows, frames, more, shots[..n], stands[..n]);
      assert more[..stands[n]] == frames[..stands[n]];
    }
  }

  lemma HighAdded(rows: nat, frames: seq<Frame>, more: seq<Frame>, shots: seq<Shot>, stands: seq<nat>, shot: Shot)
    requires AllHigh(rows, frames, shots, stands) && frames <= more
    requires |ScreenAfter(rows, more)| == Higher(rows, Highest(shots + [shot]))
    ensures AllHigh(rows, more, shots + [shot], stands + [|more|])
  {
    HighLater(rows, frames, more, shots, stands);
    assert (shots + [shot])[..|shots|] == shots && (stands + [|more|])[..|stands|] == stands && more[..|more|] == more;
  }

  /** A screen is as high as what was written last, or higher. */
  lemma HeightAdded(rows: nat, frames: seq<Frame>, before: seq<Row>, shots: seq<Shot>, shot: Shot, next: seq<Row>, more: seq<Frame>)
    requires Last(rows, frames, before) && |ScreenAfter(rows, frames)| == Higher(rows, Highest(shots)) && |next| == |shot.lines|
    requires if frames == [] || Changed(next, before) != [] then more == frames + [Frame(Rounded(shot.t), Changed(next, before))] else more == frames
    ensures |ScreenAfter(rows, more)| == Higher(rows, Highest(shots + [shot]))
  {
    assert (shots + [shot])[..|shots|] == shots;
    NothingChanged(next, before);
    if frames == [] || Changed(next, before) != [] {
      FrameAdded(rows, frames, before, next, Rounded(shot.t));
    }
  }

  /** The screen at which a shot stands draws exactly the shot when no earlier shot was higher, and only then: the rows of a higher one are left below it. */
  lemma ShownExactly(scene: Scene, shots: seq<Shot>, stands: seq<nat>, j: nat)
    requires j < |shots| && scene.rows == |shots[0].lines|
    requires AllShown(scene.styles, scene.rows, scene.frames, shots, stands) && AllHigh(scene.rows, scene.frames, shots, stands)
    ensures stands[j] <= |scene.frames|
    ensures Draws(scene.styles, ScreenAfter(scene.rows, scene.frames[..stands[j]]), LooksAll(shots[j].lines))
            <==> forall i :: 0 <= i <= j ==> |shots[i].lines| <= |shots[j].lines|
  {
    HighAt(scene.rows, scene.frames, shots, stands, j);
    ShownAt(scene.styles, scene.rows, scene.frames, shots, stands, j);
    var screen := ScreenAfter(scene.rows, scene.frames[..stands[j]]);
    var upTo := shots[..j + 1];
    HighestIs(upTo, |shots[j].lines|);
    HighestIs(upTo, Highest(upTo));
    assert upTo[0] == shots[0] && upTo[j] == shots[j];
    assert (forall i :: 0 <= i <= j ==> |shots[i].lines| <= |shots[j].lines|) <==> Highest(upTo) <= |shots[j].lines| by {
      assert forall i :: 0 <= i <= j ==> upTo[i] == shots[i];
    }
    assert Shows(scene.styles, screen, shots[j]);
    if |screen| == |shots[j].lines| {
      assert screen[..|shots[j].lines|] == screen;
    }
  }

  lemma {:induction false} ShownLater(styles: seq<Style>, rows: nat, frames: seq<Frame>, more: seq<Frame>, shots: seq<Shot>, stands: seq<nat>)
    requires AllShown(styles, rows, frames, shots, stands) && frames <= more
    ensures AllShown(styles, rows, more, shots, stands)
    decreases |shots|
  {
    if shots != [] {
      var n := |shots| - 1;
      ShownLater(styles, rows, frames, more, shots[..n], stands[..n]);
      assert more[..stands[n]] == frames[..stands[n]];
    }
  }

  lemma OneMoreShown(styles: seq<Style>, rows: nat, frames: seq<Frame>, shots: seq<Shot>, stands: seq<nat>, shot: Shot, drawn: seq<Row>)
    requires AllShown(styles, rows, frames, shots, stands) && frames != []
    requires Draws(styles, drawn, LooksAll(shot.lines)) && Last(rows, frames, drawn)
    ensures AllShown(styles, rows, frames, shots + [shot], stands + [|frames|])
  {
    var screen := ScreenAfter(rows, frames);
    assert screen[..|shot.lines|] == drawn;
    assert frames[..|frames|] == frames;
    assert Shows(styles, screen, shot);
    assert (shots + [shot])[..|shots|] == shots && (stands + [|frames|])[..|stands|] == stands;
  }

  /** One more shot: a frame of its own when it differs from the one before, and that one otherwise. */
  lemma ShotAdded(styles: seq<Style>, rows: nat, frames: seq<Frame>, before: seq<Row>,
                  shots: seq<Shot>, stands: seq<nat>, shot: Shot, next: seq<Row>, more: seq<Frame>, last: seq<Row>)
    requires AllShown(styles, rows, frames, shots, stands) && Last(rows, frames, before) && Draws(styles, next, LooksAll(shot.lines))
    requires if frames == [] || Changed(next, before) != []
             then more == frames + [Frame(Rounded(shot.t), Changed(next, before))] && last == next
             else more == frames && last == before
    ensures AllShown(styles, rows, more, shots + [shot], stands + [|more|]) && Last(rows, more, last)
  {
    NothingChanged(next, before);
    if frames == [] || Changed(next, before) != [] {
      FrameAdded(rows, frames, before, next, Rounded(shot.t));
    }
    ShownLater(styles, rows, frames, more, shots, stands);
    OneMoreShown(styles, rows, more, shots, stands, shot, next);
  }

  lemma StillInRange(frames: seq<Frame>, rows: nat, shots: seq<Shot>, shot: Shot, next: seq<Row>, before: seq<Row>)
    requires |next| == |shot.lines|
    requires NoneHigher(shots, rows) ==> InRange(frames, rows)
    ensures NoneHigher(shots + [shot], rows) ==>
              InRange(frames, rows) && InRange(frames + [Frame(Rounded(shot.t), Changed(next, before))], rows)
  {
    var all := shots + [shot];
    if NoneHigher(all, rows) {
      assert forall j :: 0 <= j < |shots| ==> all[j] == shots[j];
      assert all[|shots|] == shot;
      InRangeMore(frames, Rounded(shot.t), next, before, rows);
    }
  }

  /** What a loop over the shots has made: the frames, the rows written last, and the frame that stands for each shot. */
  datatype Made = Made(frames: seq<Frame>, before: seq<Row>, stands: seq<nat>)

  function OneMore(m: Made, shot: Shot, next: seq<Row>): Made {
    var changed := Changed(next, m.before);
    if m.frames == [] || changed != [] then Made(m.frames + [Frame(Rounded(shot.t), changed)], next, m.stands + [|m.frames| + 1])
    else Made(m.frames, m.before, m.stands + [|m.frames|])
  }

  /** The shots, each as the rows that draw it. */
  function MadeOf(shots: seq<Shot>, drawn: seq<seq<Row>>): Made
    requires |drawn| == |shots|
  {
    if shots == [] then Made([], [], [])
    else OneMore(MadeOf(shots[..|shots| - 1], drawn[..|shots| - 1]), shots[|shots| - 1], drawn[|shots| - 1])
  }

  ghost predicate AllDrawn(styles: seq<Style>, shots: seq<Shot>, drawn: seq<seq<Row>>) {
    && |drawn| == |shots|
    && forall j :: 0 <= j < |shots| ==> Draws(styles, drawn[j], LooksAll(shots[j].lines))
  }

  lemma DrawnMore(styles: seq<Style>, later: seq<Style>, shots: seq<Shot>, drawn: seq<seq<Row>>, shot: Shot, next: seq<Row>)
    requires AllDrawn(styles, shots, drawn) && styles <= later && Draws(later, next, LooksAll(shot.lines))
    ensures AllDrawn(later, shots + [shot], drawn + [next])
  {
    forall j | 0 <= j < |shots|
      ensures Draws(later, drawn[j], LooksAll(shots[j].lines))
    {
      DrawsLater(styles, later, drawn[j], LooksAll(shots[j].lines));
    }
  }

  lemma MadeMore(shots: seq<Shot>, drawn: seq<seq<Row>>, shot: Shot, next: seq<Row>)
    requires |drawn| == |shots|
    ensures MadeOf(shots + [shot], drawn + [next]) == OneMore(MadeOf(shots, drawn), shot, next)
  {
    assert (shots + [shot])[..|shots|] == shots && (drawn + [next])[..|shots|] == drawn;
  }

  /** What has been made of the shots so far. */
  ghost predicate Encoded(styles: seq<Style>, rows: nat, m: Made, shots: seq<Shot>) {
    && AllShown(styles, rows, m.frames, shots, m.stands)
    && AllHigh(rows, m.frames, shots, m.stands)
    && Last(rows, m.frames, m.before)
    && |ScreenAfter(rows, m.frames)| == Higher(rows, Highest(shots))
    && (NoneHigher(shots, rows) ==> InRange(m.frames, rows))
  }

  lemma OneMoreIs(m: Made, shot: Shot, next: seq<Row>)
    ensures var more, changed := OneMore(m, shot, next), Changed(next, m.before);
            && more.stands == m.stands + [|more.frames|] && m.frames <= more.frames
            && if m.frames == [] || changed != []
               then more.frames == m.frames + [Frame(Rounded(shot.t), changed)] && more.before == next
               else more.frames == m.frames && more.before == m.before
  {
  }

  lemma StillShown(styles: seq<Style>, rows: nat, m: Made, shots: seq<Shot>, shot: Shot, next: seq<Row>)
    requires AllShown(styles, rows, m.frames, shots, m.stands) && Last(rows, m.frames, m.before) && Draws(styles, next, LooksAll(shot.lines))
    ensures var more := OneMore(m, shot, next);
            AllShown(styles, rows, more.frames, shots + [shot], more.stands) && Last(rows, more.frames, more.before)
  {
    var more := OneMore(m, shot, next);
    OneMoreIs(m, shot, next);
    ShotAdded(styles, rows, m.frames, m.before, shots, m.stands, shot, next, more.frames, more.before);
  }

  lemma StillHigh(rows: nat, m: Made, shots: seq<Shot>, shot: Shot, next: seq<Row>)
    requires AllHigh(rows, m.frames, shots, m.stands) && Last(rows, m.frames, m.before) && |next| == |shot.lines|
    requires |ScreenAfter(rows, m.frames)| == Higher(rows, Highest(shots))
    ensures var more := OneMore(m, shot, next);
            && AllHigh(rows, more.frames, shots + [shot], more.stands)
            && |ScreenAfter(rows, more.frames)| == Higher(rows, Highest(shots + [shot]))
  {
    var more := OneMore(m, shot, next);
    OneMoreIs(m, shot, next);
    HeightAdded(rows, m.frames, m.before, shots, shot, next, more.frames);
    HighAdded(rows, m.frames, more.frames, shots, m.stands, shot);
  }

  lemma ShotEncoded(styles: seq<Style>, rows: nat, m: Made, shots: seq<Shot>, shot: Shot, next: seq<Row>)
    requires Encoded(styles, rows, m, shots) && Draws(styles, next, LooksAll(shot.lines))
    ensures Encoded(styles, rows, OneMore(m, shot, next), shots + [shot])
  {
    StillShown(styles, rows, m, shots, shot, next);
    StillHigh(rows, m, shots, shot, next);
    OneMoreIs(m, shot, next);
    StillInRange(m.frames, rows, shots, shot, next, m.before);
  }

  /**
   Every shot of a recording is shown, in the styles it was captured in, by the screen at the frame that stands for it, which is as high as the
   highest shot up to then; and when no shot is higher than the first, no row is written below it.
   */
  lemma {:induction false} AllEncoded(styles: seq<Style>, rows: nat, shots: seq<Shot>, drawn: seq<seq<Row>>)
    requires AllDrawn(styles, shots, drawn)
    ensures Encoded(styles, rows, MadeOf(shots, drawn), shots)
    decreases |shots|
  {
    if shots == [] {
      NothingEncoded(styles, rows);
    } else {
      var n := |shots| - 1;
      DrawnInit(styles, shots, drawn);
      Rejoin(shots);
      Rejoin(drawn);
      AllEncoded(styles, rows, shots[..n], drawn[..n]);
      OneMoreEncoded(styles, rows, shots[..n], drawn[..n], shots[n], drawn[n], shots, drawn);
    }
  }

  lemma Rejoin<T>(s: seq<T>)
    requires s != []
    ensures s == s[..|s| - 1] + [s[|s| - 1]]
  {
  }

  lemma NothingEncoded(styles: seq<Style>, rows: nat)
    ensures Encoded(styles, rows, MadeOf([], []), [])
  {
  }

  lemma OneMoreEncoded(styles: seq<Style>, rows: nat, shots: seq<Shot>, drawn: seq<seq<Row>>, shot: Shot, next: seq<Row>,
                       all: seq<Shot>, allDrawn: seq<seq<Row>>)
    requires |drawn| == |shots| && Encoded(styles, rows, MadeOf(shots, drawn), shots) && Draws(styles, next, LooksAll(shot.lines))
    requires all == shots + [shot] && allDrawn == drawn + [next]
    ensures Encoded(styles, rows, MadeOf(all, allDrawn), all)
  {
    MadeMore(shots, drawn, shot, next);
    ShotEncoded(styles, rows, MadeOf(shots, drawn), shots, shot, next);
  }

  lemma DrawnInit(styles: seq<Style>, shots: seq<Shot>, drawn: seq<seq<Row>>)
    requires AllDrawn(styles, shots, drawn) && shots != []
    ensures var n := |shots| - 1;
            AllDrawn(styles, shots[..n], drawn[..n]) && Draws(styles, drawn[n], LooksAll(shots[n].lines))
  {
  }

  lemma ShotDrawn(styles: seq<Style>, later: seq<Style>, shots: seq<Shot>, k: nat, drawn: seq<seq<Row>>, next: seq<Row>)
    requires k < |shots| && AllDrawn(styles, shots[..k], drawn) && styles <= later && Draws(later, next, LooksAll(shots[k].lines))
    ensures AllDrawn(later, shots[..k + 1], drawn + [next])
    ensures MadeOf(shots[..k + 1], drawn + [next]) == OneMore(MadeOf(shots[..k], drawn), shots[k], next)
  {
    assert shots[..k + 1] == shots[..k] + [shots[k]];
    DrawnMore(styles, later, shots[..k], drawn, shots[k], next);
    MadeMore(shots[..k], drawn, shots[k], next);
  }

  /** `encode`: the rows of each shot in turn, a frame of what changed, and none when nothing did. */
  method Encode(shots: seq<Shot>) returns (scene: Scene, ghost drawn: seq<seq<Row>>)
    ensures scene.rows == (if shots == [] then 0 else |shots[0].lines|)
    ensures AllDrawn(scene.styles, shots, drawn)
    ensures scene.frames == MadeOf(shots, drawn).frames
  {
    var table := new Table();
    var frames: seq<Frame> := [];
    var before: seq<Row> := [];
    drawn := [];
    for k := 0 to |shots|
      invariant table.Valid() && fresh(table)
      invariant AllDrawn(table.styles, shots[..k], drawn)
      invariant frames == MadeOf(shots[..k], drawn).frames && before == MadeOf(shots[..k], drawn).before
    {
      ghost var was := table.styles;
      var next := table.RowsOf(shots[k].lines);
      var changed := Changed(next, before);
      ShotDrawn(was, table.styles, shots, k, drawn, next);
      if frames == [] || changed != [] {
        frames := frames + [Frame(Rounded(shots[k].t), changed)];
        before := next;
      }
      drawn := drawn + [next];
    }
    assert shots[..|shots|] == shots;
    scene := Scene(if shots == [] then 0 else |shots[0].lines|, table.styles, frames);
  }
}
