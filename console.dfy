/**
 * The text console: a `rows` x `columns + 1` character buffer and a cursor.
 * Printable characters are stored at the cursor until the last column; a
 * newline moves to the next row, and on the last row scrolls the buffer up by
 * one row and clears the bottom row. Glyph rendering is not part of this
 * model.
 */
module Console {

  /** The buffer contents and the cursor, as plain values. */
  datatype Screen = Screen(text: seq<seq<char>>, row: nat, column: nat)

  function BlankRow(width: nat): (r: seq<char>)
    ensures |r| == width && forall k :: 0 <= k < width ==> r[k] == '\0'
  {
    seq(width, _ => '\0')
  }

  /** The shape every console state has: `rows` rows of `columns + 1`
      characters, the cursor row inside the buffer and the cursor column at
      most `columns - 1`. */
  predicate ScreenOk(st: Screen, rows: nat, columns: nat)
  {
    && rows >= 1 && columns >= 1
    && |st.text| == rows
    && (forall r :: 0 <= r < rows ==> |st.text[r]| == columns + 1)
    && st.row < rows && st.column <= columns - 1
  }

  /** `NewLine`. */
  function NewLineSpec(st: Screen, rows: nat, columns: nat): (r: Screen)
    requires ScreenOk(st, rows, columns)
    ensures ScreenOk(r, rows, columns) && r.column == 0
    ensures st.row < rows - 1 ==> r.row == st.row + 1 && r.text == st.text
    ensures st.row == rows - 1 ==>
      && r.row == rows - 1
      && (forall k :: 0 <= k < rows - 1 ==> r.text[k] == st.text[k + 1])
      && r.text[rows - 1] == BlankRow(columns + 1)
  {
    if st.row < rows - 1 then
      Screen(st.text, st.row + 1, 0)
    else
      Screen(st.text[1..] + [BlankRow(columns + 1)], st.row, 0)
  }

  /** One character of `PutString`. */
  function PutCharSpec(st: Screen, ch: char, rows: nat, columns: nat): (r: Screen)
    requires ScreenOk(st, rows, columns)
    ensures ScreenOk(r, rows, columns)
    ensures ch != '\n' && st.column < columns - 1 ==>
      && r.row == st.row && r.column == st.column + 1
      && r.text[st.row][st.column] == ch
      && (forall k, c :: 0 <= k < rows && 0 <= c <= columns && (k, c) != (st.row, st.column) ==>
            r.text[k][c] == st.text[k][c])
    ensures ch != '\n' && st.column == columns - 1 ==> r == st
  {
    if ch == '\n' then NewLineSpec(st, rows, columns)
    else if st.column < columns - 1 then
      Screen(st.text[st.row := st.text[st.row][st.column := ch]], st.row, st.column + 1)
    else st
  }

  /** `PutString`: the characters in order, up to the first NUL. */
  function PutStringSpec(st: Screen, s: seq<char>, rows: nat, columns: nat): (r: Screen)
    requires ScreenOk(st, rows, columns)
    ensures ScreenOk(r, rows, columns)
    decreases |s|
  {
    if s == [] || s[0] == '\0' then st
    else PutStringSpec(PutCharSpec(st, s[0], rows, columns), s[1..], rows, columns)
  }

  /** Printing `a` and then `b` is printing `a + b`, while `a` holds no NUL. */
  lemma {:induction false} PutStringConcat(st: Screen, a: seq<char>, b: seq<char>, rows: nat, columns: nat)
    requires ScreenOk(st, rows, columns) && '\0' !in a
    ensures PutStringSpec(st, a + b, rows, columns)
         == PutStringSpec(PutStringSpec(st, a, rows, columns), b, rows, columns)
    decreases |a|
  {
    if a != [] {
      assert (a + b)[0] == a[0] && (a + b)[1..] == a[1..] + b;
      PutStringConcat(PutCharSpec(st, a[0], rows, columns), a[1..], b, rows, columns);
    } else {
      assert a + b == b;
    }
  }

  /** Nothing after the terminating NUL is printed. */
  lemma PutStringStopsAtNul(st: Screen, a: seq<char>, b: seq<char>, rows: nat, columns: nat)
    requires ScreenOk(st, rows, columns) && '\0' !in a
    ensures PutStringSpec(st, a + ['\0'] + b, rows, columns) == PutStringSpec(st, a, rows, columns)
  {
    assert a + ['\0'] + b == a + (['\0'] + b);
    PutStringConcat(st, a, ['\0'] + b, rows, columns);
  }

  class Console {
    const rows: nat
    const columns: nat
    const buffer: array2<char>
    var cursorRow: nat
    var cursorColumn: nat

    ghost predicate Valid()
      reads this
    {
      && rows >= 1 && columns >= 1
      && buffer.Length0 == rows && buffer.Length1 == columns + 1
      && cursorRow < rows && cursorColumn <= columns - 1
    }

    ghost function State(): (st: Screen)
      reads this, buffer
      requires Valid()
      ensures ScreenOk(st, rows, columns)
    {
      Screen(seq(rows, r reads buffer requires 0 <= r < buffer.Length0 =>
               seq(columns + 1, c reads buffer requires 0 <= c < buffer.Length1 => buffer[r, c])),
             cursorRow, cursorColumn)
    }

    /** `Console(...)`: a zeroed buffer and the cursor at the top left. */
    constructor (rowCount: nat, columnCount: nat)
      requires rowCount >= 1 && columnCount >= 1
      ensures Valid() && rows == rowCount && columns == columnCount && fresh(buffer)
      ensures State() == Screen(seq(rows, _ => BlankRow(columns + 1)), 0, 0)
    {
      rows := rowCount;
      columns := columnCount;
      buffer := new char[rowCount, columnCount + 1]((_, _) => '\0');
      cursorRow := 0;
      cursorColumn := 0;
      new;
      assert forall r :: 0 <= r < rows ==> State().text[r] == BlankRow(columns + 1);
    }

    method PutString(s: seq<char>)
      requires Valid()
      modifies this`cursorRow, this`cursorColumn, buffer
      ensures Valid()
      ensures State() == PutStringSpec(old(State()), s, rows, columns)
    {
      var i := 0;
      while i < |s| && s[i] != '\0'
        invariant 0 <= i <= |s| && Valid()
        invariant PutStringSpec(State(), s[i..], rows, columns) == PutStringSpec(old(State()), s, rows, columns)
        decreases |s| - i
      {
        ghost var after := PutCharSpec(State(), s[i], rows, columns);
        assert s[i..][0] == s[i] && s[i..][1..] == s[i + 1..];
        if s[i] == '\n' {
          NewLine();
        } else if cursorColumn < columns - 1 {
          buffer[cursorRow, cursorColumn] := s[i];
          cursorColumn := cursorColumn + 1;
          assert forall r :: 0 <= r < rows ==> State().text[r] == after.text[r];
          assert State().text == after.text;
        }
        assert State() == after;
        i := i + 1;
      }
    }

    method NewLine()
      requires Valid()
      modifies this`cursorRow, this`cursorColumn, buffer
      ensures Valid()
      ensures State() == NewLineSpec(old(State()), rows, columns)
    {
      cursorColumn := 0;
      if cursorRow < rows - 1 {
        cursorRow := cursorRow + 1;
        return;
      }
      var row := 0;
      while row < rows - 1
        invariant 0 <= row <= rows - 1 && Valid()
        invariant cursorRow == old(cursorRow) && cursorColumn == 0
        invariant forall r, c :: 0 <= r < row && 0 <= c <= columns ==> buffer[r, c] == old(buffer[r + 1, c])
        invariant forall r, c :: row <= r < rows && 0 <= c <= columns ==> buffer[r, c] == old(buffer[r, c])
      {
        var c := 0;
        while c < columns + 1
          modifies buffer
          invariant 0 <= c <= columns + 1
          invariant forall r, c' :: 0 <= r < row && 0 <= c' <= columns ==> buffer[r, c'] == old(buffer[r + 1, c'])
          invariant forall c' :: 0 <= c' < c ==> buffer[row, c'] == old(buffer[row + 1, c'])
          invariant forall c' :: c <= c' <= columns ==> buffer[row, c'] == old(buffer[row, c'])
          invariant forall r, c' :: row < r < rows && 0 <= c' <= columns ==> buffer[r, c'] == old(buffer[r, c'])
        {
          buffer[row, c] := buffer[row + 1, c];
          c := c + 1;
        }
        row := row + 1;
      }
      var last := rows - 1;
      var c := 0;
      while c < columns + 1
        modifies buffer
        invariant 0 <= c <= columns + 1
        invariant forall r, c' :: 0 <= r < last && 0 <= c' <= columns ==> buffer[r, c'] == old(buffer[r + 1, c'])
        invariant forall c' :: 0 <= c' < c ==> buffer[last, c'] == '\0'
      {
        buffer[last, c] := '\0';
        c := c + 1;
      }
      ghost var spec := NewLineSpec(old(State()), rows, columns);
      assert forall r :: 0 <= r < rows ==> State().text[r] == spec.text[r];
    }
  }
}
