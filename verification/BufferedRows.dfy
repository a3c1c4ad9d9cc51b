/** The rows of a pipelined statement: a cursor that lets go of every row it leaves. */
module BufferedRows {
  import opened Errors
  import S = Session

  class BufferedRows {
    const w: S.World
    var rows: seq<Option<S.Row>>
    var next: nat  // 1-based index of the current row; past |rows| once exhausted or closed
    ghost const all: seq<S.Row>
    ghost var shut: bool  // closed before the end
    ghost var read: nat   // how often Next gave a row

    /** The rows still to be read are there, and those left behind are not. */
    ghost predicate Valid()
      reads this
    {
      && next <= |rows| + 1
      && (|rows| == |all| || (rows == [] && next == 1))
      && (shut ==> rows == [] && next == 1)
      && read <= |all|
      && (!shut ==> (next == read && |rows| == |all|) || (next == |rows| + 1 && read == |all|))
      && forall i :: 0 <= i < |rows| ==> rows[i] == if i + 1 < next then None else Some(all[i])
    }

    /** The cursor these rows are. */
    ghost function View(): S.Cursor
      reads this
    {
      var pos := if next == 0 then S.Before else if next <= |rows| then S.At(next - 1)
                 else if shut then S.Shut(None) else S.Over(None);
      S.Cursor(all, pos, None, None)
    }

    constructor (w: S.World, rows: seq<S.Row>)
      ensures Valid() && this.w == w && View() == S.Buffered(rows)
      ensures all == rows && read == 0 && !shut
    {
      this.w, this.all := w, rows;
      this.rows, next, shut := seq(|rows|, i requires 0 <= i < |rows| => Some(rows[i])), 0, false;
      read := 0;
    }

    /** The i-th call tells whether there is an i-th row, and stands on it. */
    method Next() returns (more: bool)
      requires Valid()
      modifies this
      ensures Valid() && (View(), more) == S.CursorNext(old(View())) && shut == old(shut)
      ensures more <==> !shut && old(read) < |all|
      ensures if more then read == old(read) + 1 && View().pos == S.At(read - 1) else read == old(read)
    {
      if 0 < next <= |rows| {
        rows := rows[next - 1 := None];
      }
      if next >= |rows| {
        next := |rows| + 1;
        return false;
      }
      next := next + 1;
      read := read + 1;
      return true;
    }

    /** Scan gives the row of the last Next, which is still held. */
    method Scan(dest: S.Dest) returns (a: S.Answer)
      requires Valid()
      ensures a == S.ScanAnswer(View(), S.CursorScan(w, View(), dest))
      ensures View().pos.At? ==> 1 <= read <= |all|
      ensures View().pos.At? ==>
        var e := w.scan(all[read - 1], dest);
        a == if e.None? then S.Scanned(all[read - 1]) else S.Failed(e.value)
      ensures !View().pos.At? ==> a == S.Failed(New(ScanWithoutRow))
    {
      if next == 0 || next > |rows| {
        return S.Failed(New(ScanWithoutRow));
      }
      var row := rows[next - 1].value;
      var e := w.scan(row, dest);
      return if e.Some? then S.Failed(e.value) else S.Scanned(row);
    }

    method Close()
      requires Valid()
      modifies this
      ensures Valid() && rows == [] && View() == S.CursorClose(old(View())) && read == old(read)
      ensures shut <==> old(shut) || !old(View()).pos.Over?
    {
      shut := shut || next <= |rows|;
      rows := [];
      next := 1;
    }
  }
}
