/**
 * The pure helpers that the three table components (frontend/src/pages/DemoTable.jsx,
 * UserTable.jsx and UsersTable.jsx) each spell out for themselves: the virtualizer's item
 * count, the spacer paddings, the last visible index, which row a virtual index renders,
 * and the phone and company cell formatters.
 *
 * The virtualizer itself is a library; its output (the virtual items and the total size)
 * is an input here.
 */
module TableView {
  import opened Prelude

  /** One entry of the virtualizer's output: a row index and the pixels it occupies. */
  datatype VirtualItem = VirtualItem(index: nat, start: int, end: int)

  /** The virtualizer's `count`: the loaded rows plus one placeholder slot while more may come. */
  function ItemCount(usersLen: nat, hasMore: bool): (n: nat)
    ensures n == usersLen + 1 <==> hasMore
    ensures !hasMore ==> n == usersLen
  {
    usersLen + if hasMore then 1 else 0
  }

  /** `getVirtualItems().at(-1)?.index`: the highest visible index, if any item is visible. */
  function LastIndex(items: seq<VirtualItem>): Option<nat>
  {
    if items == [] then None else Some(items[|items| - 1].index)
  }

  /**
   * `lastItem?.index >= users.length - 1`. With no visible item the left side is `undefined`,
   * and JavaScript compares `undefined` with any number as false.
   */
  predicate ReachedEnd(items: seq<VirtualItem>, usersLen: nat)
    ensures ReachedEnd(items, usersLen) ==> items != []
    ensures items != [] && usersLen == 0 ==> ReachedEnd(items, usersLen)
    ensures items != [] && items[|items| - 1].index + 1 < usersLen ==> !ReachedEnd(items, usersLen)
  {
    match LastIndex(items)
    case None => false
    case Some(i) => i >= usersLen - 1
  }

  // ---------------------------------------------------------------------------------------
  // Spacer paddings

  /** The heights of the spacer rows above and below the rendered rows. */
  datatype Padding = Padding(top: int, bottom: int)

  /** The memoised `paddingTop` / `paddingBottom`: both 0 when nothing is visible. */
  function Paddings(items: seq<VirtualItem>, totalSize: int): (p: Padding)
    ensures items == [] ==> p == Padding(0, 0)
    ensures items != [] ==> p.top == items[0].start && p.bottom == totalSize - items[|items| - 1].end
  {
    if items == [] then Padding(0, 0)
    else Padding(items[0].start, totalSize - items[|items| - 1].end)
  }

  /** The virtualizer lays its items out back to back: each starts where the previous ends. */
  predicate Contiguous(items: seq<VirtualItem>)
  {
    && (forall i :: 0 <= i < |items| ==> items[i].start <= items[i].end)
    && (forall i :: 0 < i < |items| ==> items[i].start == items[i - 1].end)
    && (forall i :: 0 < i < |items| ==> items[i].index == items[i - 1].index + 1)
  }

  /** The pixels taken by the rendered rows themselves. */
  function RenderedHeight(items: seq<VirtualItem>): int
  {
    if items == [] then 0
    else RenderedHeight(items[..|items| - 1]) + (items[|items| - 1].end - items[|items| - 1].start)
  }

  /** Back-to-back rows span exactly from the first one's start to the last one's end. */
  lemma {:induction false} RenderedHeightSpans(items: seq<VirtualItem>)
    requires items != [] && Contiguous(items)
    ensures RenderedHeight(items) == items[|items| - 1].end - items[0].start
  {
    if |items| > 1 {
      var init := items[..|items| - 1];
      assert Contiguous(init);
      RenderedHeightSpans(init);
    }
  }

  /**
   * The two spacers and the rendered rows together are exactly as tall as the whole list, so
   * the scrollbar keeps its size; inside [0, totalSize] neither spacer is negative.
   */
  lemma PaddingsPreserveHeight(items: seq<VirtualItem>, totalSize: int)
    requires items != [] && Contiguous(items)
    ensures Paddings(items, totalSize).top + RenderedHeight(items) + Paddings(items, totalSize).bottom
            == totalSize
    ensures 0 <= items[0].start && items[|items| - 1].end <= totalSize ==>
            Paddings(items, totalSize).top >= 0 && Paddings(items, totalSize).bottom >= 0
  {
    RenderedHeightSpans(items);
  }

  /** Back-to-back items carry consecutive indices. */
  lemma {:induction false} ContiguousIndices(items: seq<VirtualItem>, j: nat)
    requires Contiguous(items) && j < |items|
    ensures items[j].index == items[0].index + j
  {
    if j > 0 {
      ContiguousIndices(items, j - 1);
    }
  }

  // ---------------------------------------------------------------------------------------
  // Which row a virtual index renders

  /** What a virtual index is drawn as. */
  datatype RowView = DataRow(index: nat) | LoadingRow

  /**
   * DemoTable's `!row` branch and UserTable's `isLoaderRow`: an index past the loaded
   * records is the placeholder slot and draws a loading row.
   */
  function PlaceholderRow(index: nat, usersLen: nat): (r: RowView)
    ensures r.DataRow? <==> index < usersLen
    ensures r.DataRow? ==> r.index == index
  {
    if index < usersLen then DataRow(index) else LoadingRow
  }

  /** The rows DemoTable and UserTable draw for the visible items, in order. */
  function WindowRows(items: seq<VirtualItem>, usersLen: nat): (rows: seq<RowView>)
    ensures |rows| == |items|
    ensures forall i :: 0 <= i < |items| ==>
              (rows[i].DataRow? <==> items[i].index < usersLen)
              && (rows[i].DataRow? ==> rows[i].index == items[i].index)
  {
    seq(|items|, i requires 0 <= i < |items| => PlaceholderRow(items[i].index, usersLen))
  }

  /** Every virtual index lies below the virtualizer's count. */
  predicate WithinCount(items: seq<VirtualItem>, usersLen: nat, hasMore: bool)
  {
    forall i :: 0 <= i < |items| ==> items[i].index < ItemCount(usersLen, hasMore)
  }

  /**
   * Within the count, the placeholder slot is the single index usersLen, and only while
   * more data may come; in a window of back-to-back items only its last row can be it.
   */
  lemma {:induction false} PlaceholderOnlyAtTail(items: seq<VirtualItem>, usersLen: nat, hasMore: bool)
    requires Contiguous(items) && WithinCount(items, usersLen, hasMore)
    ensures forall i :: 0 <= i < |items| ==>
              (WindowRows(items, usersLen)[i] == LoadingRow <==> hasMore && items[i].index == usersLen)
    ensures forall i :: 0 <= i < |items| - 1 ==> WindowRows(items, usersLen)[i].DataRow?
  {
    forall i | 0 <= i < |items| - 1
      ensures WindowRows(items, usersLen)[i].DataRow?
    {
      ContiguousIndices(items, i);
      ContiguousIndices(items, |items| - 1);
    }
  }

  /**
   * UsersTable draws a data row only for an index that has a record (the rest draw nothing),
   * and one trailing "Loading..." row while a fetch runs over a non-empty list.
   */
  function UsersTableRows(items: seq<VirtualItem>, usersLen: nat, loading: bool): (rows: seq<RowView>)
    ensures forall i :: 0 <= i < |rows| && rows[i].DataRow? ==> rows[i].index < usersLen
    ensures forall i :: 0 <= i < |rows| - 1 ==> rows[i].DataRow?
    ensures |rows| > 0 && rows[|rows| - 1] == LoadingRow <==> loading && usersLen > 0
  {
    DataRows(items, usersLen) + if loading && usersLen > 0 then [LoadingRow] else []
  }

  /** The data rows of a window, in order, skipping the indices that have no record. */
  function DataRows(items: seq<VirtualItem>, usersLen: nat): (rows: seq<RowView>)
    ensures |rows| <= |items|
    ensures forall i :: 0 <= i < |rows| ==> rows[i].DataRow? && rows[i].index < usersLen
  {
    if items == [] then []
    else (if items[0].index < usersLen then [DataRow(items[0].index)] else [])
         + DataRows(items[1..], usersLen)
  }

  /** The data rows UsersTable draws are DemoTable's rows with the placeholder dropped. */
  lemma {:induction false} DataRowsDropPlaceholders(items: seq<VirtualItem>, usersLen: nat)
    ensures DataRows(items, usersLen) == DropLoading(WindowRows(items, usersLen))
  {
    if items != [] {
      DataRowsDropPlaceholders(items[1..], usersLen);
      assert WindowRows(items, usersLen) == [PlaceholderRow(items[0].index, usersLen)]
                                            + WindowRows(items[1..], usersLen);
    }
  }

  function DropLoading(rows: seq<RowView>): seq<RowView>
  {
    if rows == [] then []
    else (if rows[0].DataRow? then [rows[0]] else []) + DropLoading(rows[1..])
  }

  // ---------------------------------------------------------------------------------------
  // Cell formatters

  /** `\d` in a JavaScript regular expression without the `u` flag: an ASCII digit. */
  predicate IsDigit(c: char)
  {
    '0' <= c <= '9'
  }

  /** `s.replace(/\D/g, "")`: the digits of s, in order. */
  function Digits(s: string): (d: string)
    ensures |d| <= |s|
    ensures forall i :: 0 <= i < |d| ==> IsDigit(d[i])
  {
    if s == [] then [] else (if IsDigit(s[0]) then [s[0]] else []) + Digits(s[1..])
  }

  /** `d.slice(-10)`: the last ten characters, or all of them when there are fewer. */
  function LastTen(d: string): string
  {
    d[Max(0, |d| - 10)..]
  }

  /** The phone column's `accessorFn`: `+1-XXX-XXX-XXXX` from the last ten digits. */
  function FormatPhone(raw: string): (r: string)
    ensures |r| == 5 + Min(10, |Digits(raw)|)
  {
    var d := LastTen(Digits(raw));
    "+1-" + Slice(d, 0, 3) + "-" + Slice(d, 3, 6) + "-" + Slice(d, 6, |d|)
  }

  lemma {:induction false} DigitsAppend(a: string, b: string)
    ensures Digits(a + b) == Digits(a) + Digits(b)
  {
    if a == [] {
      assert a + b == b;
    } else {
      assert (a + b)[0] == a[0];
      assert (a + b)[1..] == a[1..] + b;
      DigitsAppend(a[1..], b);
    }
  }

  /**
   * Each character of s meets its fate in place: the digits before it, then the character
   * itself exactly when it is a digit, then the digits after it.
   */
  lemma DigitsSplit(s: string, i: nat)
    requires i < |s|
    ensures Digits(s) == Digits(s[..i]) + (if IsDigit(s[i]) then [s[i]] else []) + Digits(s[i + 1..])
  {
    var pre, rest := s[..i], s[i..];
    assert s == pre + rest;
    DigitsAppend(pre, rest);
    assert rest[0] == s[i] && rest[1..] == s[i + 1..];
    assert Digits(rest) == (if IsDigit(s[i]) then [s[i]] else []) + Digits(s[i + 1..]);
  }

  /** A string without a digit keeps nothing. */
  lemma {:induction false} DigitsOfNonDigits(s: string)
    requires forall i :: 0 <= i < |s| ==> !IsDigit(s[i])
    ensures Digits(s) == []
  {
    if s != [] {
      DigitsOfNonDigits(s[1..]);
    }
  }

  lemma {:induction false} DigitsOfDigits(d: string)
    requires AllDigits(d)
    ensures Digits(d) == d
  {
    if d != [] {
      DigitsOfDigits(d[1..]);
    }
  }

  /** Appending a dash adds no digit. */
  lemma DigitsAppendDash(s: string)
    ensures Digits(s + "-") == Digits(s)
  {
    DigitsAppend(s, "-");
    assert Digits("-") == [] + Digits("-"[1..]);
  }

  /** Appending a run of digits adds exactly those digits. */
  lemma DigitsAppendDigits(s: string, piece: string)
    requires AllDigits(piece)
    ensures Digits(s + piece) == Digits(s) + piece
  {
    DigitsAppend(s, piece);
    DigitsOfDigits(piece);
  }

  predicate AllDigits(s: string)
  {
    forall i :: 0 <= i < |s| ==> IsDigit(s[i])
  }

  lemma DigitsOfCountryCode()
    ensures Digits("+1-") == "1"
  {
    var s0 := "+1-";
    assert s0[1..] == "1-";
    assert s0[1..][1..] == "-";
    assert "-"[1..] == [];
  }

  /** The digits of "+1-a-b-c" for digit runs a, b, c. */
  lemma DigitsOfLayout(a: string, b: string, c: string)
    requires AllDigits(a) && AllDigits(b) && AllDigits(c)
    ensures Digits("+1-" + a + "-" + b + "-" + c) == "1" + a + b + c
  {
    var s0 := "+1-";
    DigitsOfCountryCode();
    var s1 := s0 + a;
    DigitsAppendDigits(s0, a);
    assert Digits(s1) == "1" + a;
    var s2 := s1 + "-";
    DigitsAppendDash(s1);
    var s3 := s2 + b;
    DigitsAppendDigits(s2, b);
    assert Digits(s3) == "1" + a + b;
    var s4 := s3 + "-";
    DigitsAppendDash(s3);
    var s5 := s4 + c;
    DigitsAppendDigits(s4, c);
    assert Digits(s5) == "1" + a + b + c;
    assert s5 == "+1-" + a + "-" + b + "-" + c;
  }

  /**
   * The digits of a formatted number are the country code 1 followed by the kept digits:
   * the last ten of the input, in order, nothing invented and nothing reordered.
   */
  lemma FormatPhoneDigits(raw: string)
    ensures Digits(FormatPhone(raw)) == "1" + LastTen(Digits(raw))
  {
    var d := LastTen(Digits(raw));
    var a, b, c := Slice(d, 0, 3), Slice(d, 3, 6), Slice(d, 6, |d|);
    assert FormatPhone(raw) == "+1-" + a + "-" + b + "-" + c;
    SlicesRejoin(d);
    DigitsOfLayout(a, b, c);
  }

  /** The three groups the phone cell cuts out of the kept digits put back together are those digits. */
  lemma SlicesRejoin(d: string)
    ensures "1" + Slice(d, 0, 3) + Slice(d, 3, 6) + Slice(d, 6, |d|) == "1" + d
  {
    var a, b, c := Slice(d, 0, 3), Slice(d, 3, 6), Slice(d, 6, |d|);
    assert a + b + c == d;
  }

  /**
   * With at least ten digits in the input the result is fifteen characters, dashes at 2, 6
   * and 10, and the digit groups between them are the last ten digits of the input.
   */
  lemma FormatPhoneShape(raw: string)
    requires |Digits(raw)| >= 10
    ensures |FormatPhone(raw)| == 15
    ensures FormatPhone(raw)[..3] == "+1-" && FormatPhone(raw)[6] == '-' && FormatPhone(raw)[10] == '-'
    ensures FormatPhone(raw)[3..6] + FormatPhone(raw)[7..10] + FormatPhone(raw)[11..]
            == Digits(raw)[|Digits(raw)| - 10..]
  {
    var d := LastTen(Digits(raw));
    assert |d| == 10 && d == Digits(raw)[|Digits(raw)| - 10..];
    var a, b, c := Slice(d, 0, 3), Slice(d, 3, 6), Slice(d, 6, |d|);
    assert a == d[0..3] && b == d[3..6] && c == d[6..10];
    assert a + b + c == d;
    assert FormatPhone(raw) == "+1-" + a + "-" + b + "-" + c;
    LayoutPositions(a, b, c);
  }

  /** Where the groups sit in "+1-a-b-c" when they have 3, 3 and 4 characters. */
  lemma LayoutPositions(a: string, b: string, c: string)
    requires |a| == 3 && |b| == 3 && |c| == 4
    ensures var r := "+1-" + a + "-" + b + "-" + c;
            |r| == 15 && r[..3] == "+1-" && r[6] == '-' && r[10] == '-'
            && r[3..6] == a && r[7..10] == b && r[11..] == c
  {
  }

  /** Formatting a number that already has ten digits gives the same string back. */
  lemma FormatPhoneIdempotent(raw: string)
    requires |Digits(raw)| >= 10
    ensures FormatPhone(FormatPhone(raw)) == FormatPhone(raw)
  {
    var d := LastTen(Digits(raw));
    FormatPhoneDigits(raw);
    assert LastTen("1" + d) == d;
  }

  /** The company column's `accessorFn`: "<company> (<city>)". */
  function CompanyCity(company: string, city: string): (r: string)
    ensures |r| == |company| + |city| + 3
  {
    company + " (" + city + ")"
  }

  /** Given the company name's length, both parts can be read back from the cell. */
  lemma CompanyCityInjective(company1: string, city1: string, company2: string, city2: string)
    requires |company1| == |company2|
    requires CompanyCity(company1, city1) == CompanyCity(company2, city2)
    ensures company1 == company2 && city1 == city2
  {
    var r := CompanyCity(company1, city1);
    assert company1 == r[..|company1|] == company2;
    assert city1 == r[|company1| + 2..|r| - 1] == city2;
  }
}
