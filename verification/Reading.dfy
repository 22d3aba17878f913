/** What a reader of printed SQL recognizes: names, lists of names, order items and numbers. */
module Reading {
  import opened Text
  import opened Filters
  import opened Statements

  datatype Name = Name(name: string, rest: string)

  /** A name in backticks behind a keyword, and the text after it. */
  function ReadName(keyword: string, t: string): Option<Name> {
    if !(keyword + "`" <= t) then None
    else
      var name := t[|keyword| + 1..];
      var n := NameEnd(name);
      if n == |name| then None else Some(Name(name[..n], name[n + 1..]))
  }

  datatype Names = Names(names: seq<string>, rest: string)

  /** Names in backticks, each followed by `suffix`, separated by commas, and the text after them. */
  function ReadColumns(t: string, suffix: string): Option<Names>
    decreases |t|
  {
    match ReadName("", t)
    case None => None
    case Some(Name(name, rest)) =>
      if !(suffix <= rest) then None
      else
        var after := rest[|suffix|..];
        if !(", " <= after) then Some(Names([name], after))
        else match ReadColumns(after[2..], suffix)
          case None => None
          case Some(Names(names, end)) => Some(Names([name] + names, end))
  }

  /** The text behind a keyword. */
  function Behind(keyword: string, t: string): Option<string> {
    if keyword <= t then Some(t[|keyword|..]) else None
  }

  /** A name of one or two parts, each in backticks. */
  function ReadQuoted(t: string): Option<Name> {
    match ReadName("", t)
    case None => None
    case Some(Name(a, rest)) =>
      match ReadName(".", rest)
      case None => Some(Name(a, rest))
      case Some(Name(b, rest')) => Some(Name(a + "." + b, rest'))
  }

  datatype Ordered = Ordered(order: Order, rest: string)

  function ReadOrder(t: string): Option<Ordered> {
    match ReadQuoted(t)
    case None => None
    case Some(Name(field, rest)) =>
      if " DESC" <= rest then Some(Ordered(Order(field, true), rest[5..]))
      else if " ASC" <= rest then Some(Ordered(Order(field, false), rest[4..]))
      else None
  }

  datatype Orders = Orders(orders: seq<Order>, rest: string)

  /** Order items separated by commas. */
  function ReadOrders(t: string): Option<Orders>
    decreases |t|
  {
    match ReadOrder(t)
    case None => None
    case Some(Ordered(order, rest)) =>
      if !(", " <= rest) then Some(Orders([order], rest))
      else match ReadOrders(rest[2..])
        case None => None
        case Some(Orders(orders, end)) => Some(Orders([order] + orders, end))
  }

  function DigitsEnd(t: string): (r: nat)
    ensures r <= |t|
  {
    if t == "" || !IsDigit(t[0]) then 0 else 1 + DigitsEnd(t[1..])
  }

  /** The number that decimal digits stand for. */
  function ValueOf(digits: string): int {
    if digits == "" then 0 else 10 * ValueOf(digits[..|digits| - 1]) + (digits[|digits| - 1] as int - '0' as int)
  }

  datatype Number = Number(value: int, rest: string)

  function ReadDigits(t: string): Option<Number> {
    var n := DigitsEnd(t);
    if n == 0 then None else Some(Number(ValueOf(t[..n]), t[n..]))
  }

  function ReadNumber(t: string): Option<Number> {
    if "-" <= t then
      match ReadDigits(t[1..])
      case None => None
      case Some(Number(value, rest)) => Some(Number(-value, rest))
    else ReadDigits(t)
  }

  /** What follows a condition: the order, and the numbers behind LIMIT and OFFSET. */
  datatype Closing = Closing(orders: seq<Order>, limit: Option<int>, offset: Option<int>)

  function ReadClosing(t: string): Option<Closing> {
    match Behind(" ORDER BY ", t)
    case None => ReadBounds([], t)
    case Some(items) =>
      match ReadOrders(items)
      case None => None
      case Some(Orders(orders, rest)) => ReadBounds(orders, rest)
  }

  function ReadBounds(orders: seq<Order>, t: string): Option<Closing> {
    match Behind(" LIMIT ", t)
    case None => ReadOffset(orders, None, t)
    case Some(number) =>
      match ReadNumber(number)
      case None => None
      case Some(Number(limit, rest)) => ReadOffset(orders, Some(limit), rest)
  }

  function ReadOffset(orders: seq<Order>, limit: Option<int>, t: string): Option<Closing> {
    match Behind(" OFFSET ", t)
    case None => if t == "" then Some(Closing(orders, limit, None)) else None
    case Some(number) =>
      match ReadNumber(number)
      case None => None
      case Some(Number(offset, rest)) => if rest == "" then Some(Closing(orders, limit, Some(offset))) else None
  }

  // ---------------------------------------------------------------------
  // Names and columns are found
  // ---------------------------------------------------------------------

  lemma TakesPrefix(p: string, t: string)
    ensures p <= p + t && (p + t)[|p|..] == t
  {
  }

  lemma NameIsFound(keyword: string, name: string, rest: string)
    requires IsWord(name)
    ensures ReadName(keyword, keyword + (QuoteIdentifier(name) + rest)) == Some(Name(name, rest))
  {
    var t := name + "`" + rest;
    assert keyword + (QuoteIdentifier(name) + rest) == keyword + "`" + t;
    TakesPrefix(keyword + "`", t);
    NameReadsBack(name, rest);
    assert t[..|name|] == name && t[|name| + 1..] == rest;
  }

  lemma OneItem(name: string, suffix: string, after: string)
    requires IsWord(name)
    ensures ReadName("", QuoteIdentifier(name) + (suffix + after)) == Some(Name(name, suffix + after))
    ensures suffix <= suffix + after && (suffix + after)[|suffix|..] == after
  {
    NameIsFound("", name, suffix + after);
    assert "" + (QuoteIdentifier(name) + (suffix + after)) == QuoteIdentifier(name) + (suffix + after);
    TakesPrefix(suffix, after);
  }

  lemma LastItem(name: string, suffix: string, tail: string)
    requires IsWord(name) && !(", " <= tail)
    ensures ReadColumns(QuoteIdentifier(name) + (suffix + tail), suffix) == Some(Names([name], tail))
  {
    OneItem(name, suffix, tail);
  }

  lemma FirstItem(name: string, suffix: string, comma: string, more: string)
    requires IsWord(name) && comma == ", "
    ensures ReadColumns(QuoteIdentifier(name) + (suffix + (comma + more)), suffix)
         == match ReadColumns(more, suffix)
            case None => None
            case Some(Names(names, end)) => Some(Names([name] + names, end))
  {
    OneItem(name, suffix, comma + more);
    TakesPrefix(comma, more);
  }

  lemma ColumnsLast(name: string, others: seq<string>, suffix: string)
    requires others != []
    ensures var last := QuoteIdentifier(others[|others| - 1]) + suffix;
            Columns([name] + others, suffix) == Columns([name] + others[..|others| - 1], suffix) + ", " + last
  {
    assert ([name] + others)[..|others|] == [name] + others[..|others| - 1];
  }

  /** The first column apart. */
  lemma {:induction false} ColumnsFirst(name: string, others: seq<string>, suffix: string)
    requires others != []
    ensures Columns([name] + others, suffix) == QuoteIdentifier(name) + suffix + ", " + Columns(others, suffix)
    decreases |others|
  {
    var front, last := others[..|others| - 1], QuoteIdentifier(others[|others| - 1]) + suffix;
    ColumnsLast(name, others, suffix);
    if front != [] {
      ColumnsFirst(name, front, suffix);
      FiveAlike(QuoteIdentifier(name) + suffix, ", ", Columns(front, suffix), last);
    }
  }

  lemma FiveAlike(a: string, comma: string, b: string, c: string)
    ensures a + comma + b + comma + c == a + comma + (b + comma + c)
  {
  }

  lemma ItemThen(name: string, suffix: string, comma: string, others: string, tail: string)
    ensures name + suffix + comma + others + tail == name + (suffix + (comma + (others + tail)))
  {
  }

  lemma ThreeAlike(a: string, b: string, c: string)
    ensures a + b + c == a + (b + c)
  {
  }

  /** The printed columns, in front of the rest of the statement, are read as these names. */
  predicate ReadAs(printed: string, suffix: string, names: seq<string>, tail: string) {
    ReadColumns(printed + tail, suffix) == Some(Names(names, tail))
  }

  lemma {:induction false} ColumnsReadBack(name: string, others: seq<string>, suffix: string, tail: string)
    requires IsWord(name) && Words(others) && !(", " <= tail)
    ensures ReadAs(Columns([name] + others, suffix), suffix, [name] + others, tail)
    decreases |others|
  {
    if others == [] {
      assert [name] + others == [name];
      OnlyColumn(name, suffix, tail);
    } else {
      var next, rest := others[0], others[1..];
      assert [next] + rest == others;
      ColumnsReadBack(next, rest, suffix, tail);
      ColumnsFirst(name, others, suffix);
      OneMoreColumn(name, others, suffix, Columns(others, suffix), ", ", tail);
    }
  }

  lemma OnlyColumn(name: string, suffix: string, tail: string)
    requires IsWord(name) && !(", " <= tail)
    ensures ReadAs(Columns([name], suffix), suffix, [name], tail)
  {
    LastItem(name, suffix, tail);
    ThreeAlike(QuoteIdentifier(name), suffix, tail);
  }

  lemma OneMoreColumn(name: string, others: seq<string>, suffix: string, printed: string, comma: string, tail: string)
    requires IsWord(name) && comma == ", "
    requires ReadAs(printed, suffix, others, tail)
    ensures ReadAs(QuoteIdentifier(name) + suffix + comma + printed, suffix, [name] + others, tail)
  {
    ItemThen(QuoteIdentifier(name), suffix, comma, printed, tail);
    FirstItem(name, suffix, comma, printed + tail);
  }

  lemma NoColumns(tail: string, suffix: string)
    requires tail == "" || tail[0] != '`'
    ensures ReadColumns(Columns([], suffix) + tail, suffix) == None
  {
    assert "" + tail == tail;
  }

  // ---------------------------------------------------------------------
  // Numbers are found
  // ---------------------------------------------------------------------

  lemma {:induction false} DigitsAreRead(n: nat)
    ensures ValueOf(Digits(n)) == n
  {
    var d := (n % 10) as char + '0';
    assert ValueOf([d]) == n % 10 by { assert [d][..0] == ""; }
    if n >= 10 {
      DigitsAreRead(n / 10);
      assert Digits(n) == Digits(n / 10) + [d];
      assert Digits(n)[..|Digits(n)| - 1] == Digits(n / 10);
    }
  }

  lemma {:induction false} DigitsEndThere(d: string, rest: string)
    requires (forall i :: 0 <= i < |d| ==> IsDigit(d[i])) && (rest == "" || !IsDigit(rest[0]))
    ensures DigitsEnd(d + rest) == |d|
  {
    if d == "" {
      assert d + rest == rest;
    } else {
      assert (d + rest)[0] == d[0] && (d + rest)[1..] == d[1..] + rest;
      DigitsEndThere(d[1..], rest);
    }
  }

  lemma NaturalIsRead(n: nat, rest: string)
    requires rest == "" || !IsDigit(rest[0])
    ensures ReadDigits(Digits(n) + rest) == Some(Number(n, rest))
    ensures ReadNumber(Digits(n) + rest) == Some(Number(n, rest))
  {
    var d := Digits(n);
    DigitsAreRead(n);
    DigitsEndThere(d, rest);
    assert (d + rest)[..|d|] == d && (d + rest)[|d|..] == rest;
    assert IsDigit(d[0]) && (d + rest)[0] == d[0];
  }

  /** A printed number reads back as that number. */
  lemma NumberReadsBack(n: int, rest: string)
    requires rest == "" || !IsDigit(rest[0])
    ensures ReadNumber(Itoa(n) + rest) == Some(Number(n, rest))
  {
    if n < 0 {
      NaturalIsRead(-n, rest);
      MinusFirst("-", Digits(-n), rest);
    } else {
      NaturalIsRead(n, rest);
    }
  }

  lemma MinusFirst(minus: string, d: string, rest: string)
    requires |minus| == 1
    ensures minus <= minus + d + rest && (minus + d + rest)[1..] == d + rest
  {
  }

  /** The bounds of a statement, each there or not, read back. */
  function Bound(keyword: string, n: Option<int>): string {
    if n.Some? then keyword + Itoa(n.value) else ""
  }

  lemma OffsetReadsBack(orders: seq<Order>, limit: Option<int>, offset: Option<int>, keyword: string)
    requires keyword == " OFFSET "
    ensures ReadOffset(orders, limit, Bound(keyword, offset)) == Some(Closing(orders, limit, offset))
  {
    if offset.Some? {
      TakesPrefix(keyword, Itoa(offset.value));
      NumberReadsBack(offset.value, "");
      assert Itoa(offset.value) + "" == Itoa(offset.value);
    }
  }

  lemma BoundsReadBack(orders: seq<Order>, limit: Option<int>, offset: Option<int>, keyword: string, keyword': string)
    requires keyword == " LIMIT " && keyword' == " OFFSET "
    ensures ReadBounds(orders, Bound(keyword, limit) + Bound(keyword', offset)) == Some(Closing(orders, limit, offset))
  {
    var tail := Bound(keyword', offset);
    OffsetReadsBack(orders, limit, offset, keyword');
    assert tail != "" ==> tail[0] == ' ' && tail[1] == 'O';
    if limit.Some? {
      LimitIsRead(orders, limit.value, keyword, tail);
    } else {
      NoLimitIsRead(orders, keyword, tail);
    }
  }

  lemma LimitIsRead(orders: seq<Order>, limit: int, keyword: string, tail: string)
    requires keyword == " LIMIT " && (tail == "" || tail[0] == ' ')
    ensures ReadBounds(orders, keyword + Itoa(limit) + tail) == ReadOffset(orders, Some(limit), tail)
  {
    NumberReadsBack(limit, tail);
    ThreeAlike(keyword, Itoa(limit), tail);
    TakesPrefix(keyword, Itoa(limit) + tail);
  }

  lemma NoLimitIsRead(orders: seq<Order>, keyword: string, tail: string)
    requires keyword == " LIMIT " && (tail != "" ==> |tail| > 1 && tail[1] != 'L')
    ensures ReadBounds(orders, "" + tail) == ReadOffset(orders, None, tail)
  {
    NothingInFront("", tail);
    assert keyword[1] == 'L' && !(keyword <= tail);
  }

  // ---------------------------------------------------------------------
  // Order items are found
  // ---------------------------------------------------------------------

  /** A name in print, read in front of any text that does not add a second part to it. */
  predicate Quoted(printed: string, name: string, rest: string) {
    ReadQuoted(printed + rest) == Some(Name(name, rest))
  }

  lemma OnePartQuoted(name: string, rest: string)
    requires IsWord(name) && !(".`" <= rest)
    ensures Quoted(QuoteIdentifier(name), name, rest)
  {
    NameIsFound("", name, rest);
    assert "" + (QuoteIdentifier(name) + rest) == QuoteIdentifier(name) + rest;
    assert "." + "`" == ".`";
  }

  lemma TwoPartsQuoted(a: string, b: string, dot: string, rest: string)
    requires IsWord(a) && IsWord(b) && dot == "."
    ensures Quoted(QuoteIdentifier(a) + dot + QuoteIdentifier(b), a + dot + b, rest)
  {
    var behind := dot + (QuoteIdentifier(b) + rest);
    NameIsFound("", a, behind);
    NothingInFront("", QuoteIdentifier(a) + behind);
    NameIsFound(dot, b, rest);
    FourAlike(QuoteIdentifier(a), dot, QuoteIdentifier(b), rest);
  }

  lemma NothingInFront(nothing: string, t: string)
    requires nothing == ""
    ensures nothing + t == t
  {
  }

  lemma FourAlike(a: string, b: string, c: string, d: string)
    ensures a + b + c + d == a + (b + (c + d))
  {
  }

  lemma OrderIsRead(printed: string, o: Order, dir: string, rest: string)
    requires dir == (if o.descending then " DESC" else " ASC") && Quoted(printed, o.field, dir + rest)
    ensures ReadOrder(printed + dir + rest) == Some(Ordered(o, rest))
  {
    ThreeAlike(printed, dir, rest);
    DirectionIsRead(printed + (dir + rest), o, dir, rest);
  }

  lemma DirectionIsRead(t: string, o: Order, dir: string, rest: string)
    requires dir == (if o.descending then " DESC" else " ASC") && ReadQuoted(t) == Some(Name(o.field, dir + rest))
    ensures ReadOrder(t) == Some(Ordered(o, rest))
  {
    TakesPrefix(dir, rest);
    assert (dir + rest)[1] == dir[1];
  }

  /** Printed order items are read as these orders. */
  predicate ReadAsOrders(printed: string, orders: seq<Order>, tail: string) {
    ReadOrders(printed + tail) == Some(Orders(orders, tail))
  }

  lemma OneOrder(item: string, o: Order, tail: string)
    requires ReadOrder(item + tail) == Some(Ordered(o, tail)) && !(", " <= tail)
    ensures ReadAsOrders(item, [o], tail)
  {
  }

  lemma MoreOrders(t: string, o: Order, comma: string, more: string, read: Orders)
    requires comma == ", " && ReadOrder(t) == Some(Ordered(o, comma + more)) && ReadOrders(more) == Some(read)
    ensures ReadOrders(t) == Some(Orders([o] + read.orders, read.rest))
  {
    TakesPrefix(comma, more);
  }

  lemma OneMoreOrder(item: string, o: Order, comma: string, printed: string, others: seq<Order>, tail: string)
    requires comma == ", " && ReadAsOrders(printed, others, tail)
    requires ReadOrder(item + (comma + (printed + tail))) == Some(Ordered(o, comma + (printed + tail)))
    ensures ReadAsOrders(item + comma + printed, [o] + others, tail)
  {
    FourAlike(item, comma, printed, tail);
    MoreOrders(item + (comma + (printed + tail)), o, comma, printed + tail, Orders(others, tail));
  }

  /** A printed name is read as the field, whatever order item it stands in. */
  ghost predicate NamesField(printed: string, field: string) {
    forall rest: string :: rest != "" && rest[0] == ' ' ==> Quoted(printed, field, rest)
  }

  function Item(printed: string, descending: bool): string {
    printed + if descending then " DESC" else " ASC"
  }

  function Items(printed: seq<string>, orders: seq<Order>): (r: seq<string>)
    requires |printed| == |orders|
    ensures |r| == |orders| && forall i :: 0 <= i < |r| ==> r[i] == Item(printed[i], orders[i].descending)
  {
    seq(|orders|, i requires 0 <= i < |orders| => Item(printed[i], orders[i].descending))
  }

  lemma ItemIsRead(printed: string, o: Order, rest: string)
    requires NamesField(printed, o.field)
    ensures ReadOrder(Item(printed, o.descending) + rest) == Some(Ordered(o, rest))
  {
    var dir := if o.descending then " DESC" else " ASC";
    assert (dir + rest)[0] == ' ';
    OrderIsRead(printed, o, dir, rest);
  }

  lemma OnlyOrderReadsBack(printed: string, o: Order, tail: string)
    requires NamesField(printed, o.field) && !(", " <= tail)
    ensures ReadAsOrders(Item(printed, o.descending), [o], tail)
  {
    ItemIsRead(printed, o, tail);
    OneOrder(Item(printed, o.descending), o, tail);
  }

  /** A list of order items separated by commas reads back. */
  lemma {:induction false} OrdersReadBack(printed: seq<string>, orders: seq<Order>, comma: string, tail: string)
    requires |printed| == |orders| > 0 && comma == ", " && !(comma <= tail)
    requires forall i :: 0 <= i < |orders| ==> NamesField(printed[i], orders[i].field)
    ensures ReadAsOrders(Join(Items(printed, orders), comma), orders, tail)
    decreases |orders|
  {
    ItemsFirst(printed, orders, comma);
    assert NamesField(printed[0], orders[0].field);
    if |orders| == 1 {
      OnlyOrderReadsBack(printed[0], orders[0], tail);
    } else {
      var more := Join(Items(printed[1..], orders[1..]), comma);
      OrdersReadBack(printed[1..], orders[1..], comma, tail);
      FirstOrderReadsBack(printed[0], orders[0], comma, more, orders[1..], tail);
    }
  }

  lemma ItemsFirst(printed: seq<string>, orders: seq<Order>, comma: string)
    requires |printed| == |orders| > 0
    ensures var first := Item(printed[0], orders[0].descending);
            Join(Items(printed, orders), comma)
            == if |orders| == 1 then first else first + comma + Join(Items(printed[1..], orders[1..]), comma)
    ensures [orders[0]] + orders[1..] == orders
    ensures |orders| == 1 ==> [orders[0]] == orders
  {
    assert Items(printed, orders)[1..] == Items(printed[1..], orders[1..]);
  }

  lemma FirstOrderReadsBack(printed: string, o: Order, comma: string, more: string, others: seq<Order>, tail: string)
    requires NamesField(printed, o.field) && comma == ", " && ReadAsOrders(more, others, tail)
    ensures ReadAsOrders(Item(printed, o.descending) + comma + more, [o] + others, tail)
  {
    ItemIsRead(printed, o, comma + (more + tail));
    OneMoreOrder(Item(printed, o.descending), o, comma, more, others, tail);
  }

  /** An order clause and the bounds behind it, as every statement prints them. */
  lemma ClosingReadsBack(printed: seq<string>, orders: seq<Order>, limit: Option<int>, offset: Option<int>,
                      orderBy: string, keyword: string, keyword': string)
    requires |printed| == |orders| && orderBy == " ORDER BY " && keyword == " LIMIT " && keyword' == " OFFSET "
    requires forall i :: 0 <= i < |orders| ==> NamesField(printed[i], orders[i].field)
    ensures ReadClosing((if orders == [] then "" else orderBy + Join(Items(printed, orders), ", "))
                     + (Bound(keyword, limit) + Bound(keyword', offset)))
         == Some(Closing(orders, limit, offset))
  {
    var bounds := Bound(keyword, limit) + Bound(keyword', offset);
    BoundsReadBack(orders, limit, offset, keyword, keyword');
    BoundsStart(keyword, limit, keyword', offset, orderBy);
    if orders == [] {
      NoOrderIsRead(orderBy, bounds);
    } else {
      OrdersReadBack(printed, orders, ", ", bounds);
      OrderClauseIsRead(orderBy, Join(Items(printed, orders), ", "), orders, bounds);
    }
  }

  lemma NoOrderIsRead(orderBy: string, bounds: string)
    requires orderBy == " ORDER BY " && !(orderBy <= bounds)
    ensures ReadClosing("" + bounds) == ReadBounds([], bounds)
  {
    NothingInFront("", bounds);
  }

  lemma OrderClauseIsRead(orderBy: string, items: string, orders: seq<Order>, bounds: string)
    requires orderBy == " ORDER BY " && ReadAsOrders(items, orders, bounds)
    ensures ReadClosing(orderBy + items + bounds) == ReadBounds(orders, bounds)
  {
    ThreeAlike(orderBy, items, bounds);
    TakesPrefix(orderBy, items + bounds);
  }

  lemma BoundsStart(keyword: string, limit: Option<int>, keyword': string, offset: Option<int>, orderBy: string)
    requires keyword == " LIMIT " && keyword' == " OFFSET " && orderBy == " ORDER BY "
    ensures var bounds := Bound(keyword, limit) + Bound(keyword', offset);
            (bounds != "" ==> bounds[0] == ' ') && !(orderBy <= bounds)
  {
    var bounds := Bound(keyword, limit) + Bound(keyword', offset);
    if limit.Some? {
      assert bounds[1] == keyword[1];
    } else if offset.Some? {
      assert bounds == keyword' + Itoa(offset.value);
      assert bounds[2] == keyword'[2] && orderBy[2] == 'R';
    }
  }
}
