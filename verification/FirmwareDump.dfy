/** The firmware sample's hex dump: a 16-bit row counter and an 8-bit column counter over a copy of
    the image. */
module FirmwareDump {

  const LINE_SIZE := 16
  const U16 := 0x1_0000
  const U8 := 0x100

  /** One printed line: the address in front of it and the bytes on it. */
  datatype Row = Row(address: nat, bytes: seq<bv8>)

  /** All the bytes printed, in the order they appear. */
  function Printed(rows: seq<Row>): seq<bv8> {
    if rows == [] then [] else Printed(rows[..|rows| - 1]) + rows[|rows| - 1].bytes
  }

  /** The line at a row address. */
  function RowAt(firmware: seq<bv8>, row: nat): Row
    requires (row + 1) * LINE_SIZE <= |firmware|
  {
    Row(row * LINE_SIZE, firmware[row * LINE_SIZE..(row + 1) * LINE_SIZE])
  }

  /** The lines printed, for a counter that wraps. */
  predicate RowsOf(firmware: seq<bv8>, rows: seq<Row>) {
    forall k :: 0 <= k < |rows| ==> (k % U16 + 1) * LINE_SIZE <= |firmware| && rows[k] == RowAt(firmware, k % U16)
  }

  lemma NextRow(n: nat)
    ensures (n % U16 + 1) % U16 == (n + 1) % U16
  {
  }

  lemma RowsOfSnoc(firmware: seq<bv8>, rows: seq<Row>, line: Row)
    requires RowsOf(firmware, rows)
    requires (|rows| % U16 + 1) * LINE_SIZE <= |firmware| && line == RowAt(firmware, |rows| % U16)
    ensures RowsOf(firmware, rows + [line])
  {
  }

  lemma BelowWrap(k: nat)
    requires k < U16
    ensures k % U16 == k
  {
  }

  lemma OneRowMore(firmware: seq<bv8>, n: nat)
    requires (n + 1) * LINE_SIZE <= |firmware|
    ensures firmware[..n * LINE_SIZE] + RowAt(firmware, n).bytes == firmware[..(n + 1) * LINE_SIZE]
  {
  }

  /** Before the counter wraps, the lines are those of the image in order. */
  lemma {:induction false} PrintedInOrder(firmware: seq<bv8>, rows: seq<Row>)
    requires RowsOf(firmware, rows) && |rows| <= U16
    ensures |rows| * LINE_SIZE <= |firmware| && Printed(rows) == firmware[..|rows| * LINE_SIZE]
  {
    if rows != [] {
      var last := |rows| - 1;
      PrintedInOrder(firmware, rows[..last]);
      BelowWrap(last);
      assert rows[last] == RowAt(firmware, last);
      OneRowMore(firmware, last);
    }
  }

  lemma {:induction false} PrintedSize(rows: seq<Row>)
    requires forall k :: 0 <= k < |rows| ==> |rows[k].bytes| == 16
    ensures |Printed(rows)| == 16 * |rows|
  {
    if rows != [] {
      PrintedSize(rows[..|rows| - 1]);
    }
  }

  /** Sixteen bytes a line; and before the counter wraps, the address in front of a line is the number
      of bytes printed before it. */
  lemma AddressIsPosition(firmware: seq<bv8>, rows: seq<Row>, k: nat)
    requires RowsOf(firmware, rows) && k < |rows| && k < 0x1_0000
    ensures |rows[k].bytes| == 16 && rows[k].address == |Printed(rows[..k])|
  {
    forall j | 0 <= j < |rows| ensures |rows[j].bytes| == 16 {
      assert rows[j] == RowAt(firmware, j % U16);
    }
    PrintedSize(rows[..k]);
    BelowWrap(k);
    assert rows[k] == RowAt(firmware, k);
  }

  lemma SliceOfPrefix(buf: seq<bv8>, size: nat, low: nat, high: nat)
    requires low <= high <= size <= |buf|
    ensures buf[..size][low..high] == buf[low..high]
  {
  }

  /** Copies the image into a buffer one byte longer and dumps its whole lines. The dump of a large
      image does not end, so this is what has been printed after at most `rounds` lines, and whether
      the dump has ended by then; every read is in bounds either way. */
  method SampleFwLoad(firmware: seq<bv8>, rounds: nat) returns (rows: seq<Row>, ended: bool)
    ensures ended <==> |firmware| < LINE_SIZE * U16 && rounds >= |firmware| / LINE_SIZE
    ensures |rows| == if ended then |firmware| / LINE_SIZE else rounds
    ensures RowsOf(firmware, rows)
    ensures ended ==> Printed(rows) == firmware[..|firmware| - |firmware| % LINE_SIZE]
  {
    var size := |firmware|;
    var buf := new bv8[size + 1](i requires i >= 0 => if i < |firmware| then firmware[i] else 0);
    rows := [];
    var addr := 0;
    while addr < size / LINE_SIZE && |rows| < rounds
      invariant addr == |rows| % U16 && addr <= size / LINE_SIZE && |rows| <= rounds
      invariant size < LINE_SIZE * U16 ==> |rows| == addr
      invariant RowsOf(firmware, rows)
      invariant buf[..][..size] == firmware
      decreases rounds - |rows|
    {
      NextRow(|rows|);
      var line := DumpLine(buf, addr);
      SliceOfPrefix(buf[..], size, addr * LINE_SIZE, (addr + 1) * LINE_SIZE);
      RowsOfSnoc(firmware, rows, Row(addr * LINE_SIZE, line));
      rows := rows + [Row(addr * LINE_SIZE, line)];
      addr := (addr + 1) % U16;
    }
    ended := addr >= size / LINE_SIZE;
    if ended {
      PrintedInOrder(firmware, rows);
    }
  }

  /** The inner loop. */
  method DumpLine(buf: array<bv8>, addr: nat) returns (line: seq<bv8>)
    requires (addr + 1) * LINE_SIZE <= buf.Length
    ensures line == buf[..][addr * LINE_SIZE..(addr + 1) * LINE_SIZE]
  {
    line := [];
    var index := 0;
    while index < LINE_SIZE
      invariant index == |line| <= LINE_SIZE
      invariant line == buf[addr * LINE_SIZE..addr * LINE_SIZE + index]
      decreases LINE_SIZE - index
    {
      line := line + [buf[index + addr * LINE_SIZE]];
      index := (index + 1) % U8;
    }
  }

  /** The row counter after n rounds of the loop. */
  function RowAfter(n: nat): (r: nat)
    ensures r < U16
  {
    if n == 0 then 0 else (RowAfter(n - 1) + 1) % U16
  }

  lemma {:induction false} RowAfterIsCount(n: nat)
    requires n < U16
    ensures RowAfter(n) == n
  {
    if n != 0 {
      RowAfterIsCount(n - 1);
    }
  }

  /** The loop condition is ever false exactly for images below one mebibyte; from there on the
      16-bit counter wraps before it can reach the number of lines. */
  lemma LoopEndsIff(size: nat)
    ensures (exists n :: RowAfter(n) >= size / LINE_SIZE) <==> size < 0x10_0000
  {
    if size < 0x10_0000 {
      RowAfterIsCount(size / LINE_SIZE);
    }
  }
}
