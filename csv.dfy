/**
 * The CSV text of the `/api/export/:type` route of backend/api.js: a header
 * line with the keys of the first record, then one line per record with
 * each value in double quotes, the lines joined with a line feed. Unlike
 * section 2 of RFC 4180, quotes inside a value are not doubled, and every
 * falsy value (NULL, 0, the empty string) is written as an empty field.
 */
module Export {
  import opened Optional
  import opened Text
  import opened Calendar
  import opened Store
  import opened Series
  import opened Rankings

  /** A column value of a result row, as JavaScript sees it. */
  datatype Value = Null | Int(i: int) | Decimal(hundredths: int) | Str(s: string)

  /** A result row: its column names and values, in column order. */
  type Record = seq<(string, Value)>

  predicate Falsy(v: Value)
  {
    v == Null || v == Int(0) || v == Decimal(0) || v == Str("")
  }

  /** Characters a number is printed with. */
  predicate NumberChar(c: char) { IsDigit(c) || c == '-' || c == '.' }

  /**
   * `Number.prototype.toString` of a value held in hundredths: the whole
   * part, then a point and the fraction without trailing zeros, if any.
   */
  function DecimalText(h: int): (s: string)
    ensures forall i :: 0 <= i < |s| ==> NumberChar(s[i])
  {
    if h < 0 then "-" + UnsignedDecimal(-h) else UnsignedDecimal(h)
  }

  function UnsignedDecimal(h: nat): (s: string)
    ensures forall i :: 0 <= i < |s| ==> IsDigit(s[i]) || s[i] == '.'
    ensures h % 100 == 0 ==> s == NatToString(h / 100)
  {
    var whole, frac := h / 100, h % 100;
    if frac == 0 then NatToString(whole)
    else if frac % 10 == 0 then NatToString(whole) + "." + [DigitChar(frac / 10)]
    else NatToString(whole) + "." + TwoDigits(frac)
  }

  /** The hundredths a one- or two-digit fraction stands for: "5" is 50, "05" is 5. */
  function FractionValue(f: string): nat
    requires AllDigits(f) && 1 <= |f| <= 2
  {
    if |f| == 1 then DigitsValue(f) * 10 else DigitsValue(f)
  }

  /**
   * The printed number reads back as the value: a minus sign exactly for a
   * negative value, then the printed magnitude.
   */
  lemma DecimalTextReadsBack(h: int)
    ensures var s := DecimalText(h);
      && (s[0] == '-' <==> h < 0)
      && (h < 0 ==> s[1..] == UnsignedDecimal(-h))
      && (h >= 0 ==> s == UnsignedDecimal(h))
  {
    var s := DecimalText(h);
    if h < 0 {
      assert s[1..] == UnsignedDecimal(-h);
    } else {
      var w := NatToString(h / 100);
      UnsignedReadsBack(h);
      assert s[0] == w[0];
    }
  }

  /**
   * A magnitude prints as the digits of its whole part, then, exactly when
   * the fraction is not zero, a point and one or two digits that stand for
   * the hundredths and do not end in a zero.
   */
  lemma UnsignedReadsBack(m: nat)
    ensures var u, w := UnsignedDecimal(m), |NatToString(m / 100)|;
      && w <= |u| && AllDigits(u[..w]) && DigitsValue(u[..w]) == m / 100
      && (w == |u| <==> m % 100 == 0)
      && (w < |u| ==> && 2 <= |u| - w <= 3 && u[w] == '.' && u[|u| - 1] != '0'
                      && AllDigits(u[w + 1..]) && FractionValue(u[w + 1..]) == m % 100)
  {
    var u, digits := UnsignedDecimal(m), NatToString(m / 100);
    var frac := m % 100;
    if frac == 0 {
      assert u[..|digits|] == digits;
    } else if frac % 10 == 0 {
      OneDigitFraction(frac);
      PointedText(digits, [DigitChar(frac / 10)]);
    } else {
      TwoDigitFraction(frac);
      PointedText(digits, TwoDigits(frac));
    }
  }

  /** Where the point sits in a whole part, a point and a fraction. */
  lemma PointedText(digits: string, f: string)
    ensures var u := digits + "." + f;
      && u[..|digits|] == digits && u[|digits|] == '.' && u[|digits| + 1..] == f
      && |u| == |digits| + 1 + |f| && (f != [] ==> u[|u| - 1] == f[|f| - 1])
  {
  }

  lemma OneDigitFraction(frac: nat)
    requires 0 < frac < 100 && frac % 10 == 0
    ensures var f := [DigitChar(frac / 10)]; f[0] != '0' && AllDigits(f) && FractionValue(f) == frac
  {
    var f := [DigitChar(frac / 10)];
    assert f[..0] == [];
    assert DigitsValue(f) == frac / 10;
    assert frac / 10 * 10 == frac;
  }

  lemma TwoDigitFraction(frac: nat)
    requires frac < 100 && frac % 10 != 0
    ensures var t := TwoDigits(frac); |t| == 2 && t[1] != '0' && AllDigits(t) && FractionValue(t) == frac
  {
    var t := TwoDigits(frac);
    assert DigitsValue(t) == DigitsValue(t[..1]) * 10 + DigitValue(t[1]);
  }

  /** A rate of 66.67 % prints as `66.67`. */
  lemma FractionalRateText()
    ensures DecimalText(6_667) == "66.67"
  {
    TwoDigitFractionText(6_667, 66, 67);
    RateDigits();
  }

  /** A fraction whose last digit is not zero is printed on two digits after the point. */
  lemma TwoDigitFractionText(h: nat, whole: nat, frac: nat)
    requires whole == h / 100 && frac == h % 100 && frac % 10 != 0
    ensures UnsignedDecimal(h) == NatToString(whole) + "." + TwoDigits(frac)
  {
  }

  lemma RateDigits()
    ensures NatToString(66) + "." + TwoDigits(67) == "66.67"
  {
    assert NatToString(6) == "6";
    assert NatToString(67) == "67";
  }

  /** An amount of 1500.50 prints as `1500.5`: the trailing zero is dropped. */
  lemma TrailingZeroText()
    ensures DecimalText(150_050) == "1500.5"
  {
    OneDigitFractionText(150_050, 1500, 5);
    AmountDigits();
  }

  /** A fraction whose last digit is zero is printed on one digit after the point. */
  lemma OneDigitFractionText(h: nat, whole: nat, tenth: nat)
    requires whole == h / 100 && h % 100 != 0 && h % 100 % 10 == 0 && tenth == h % 100 / 10
    ensures UnsignedDecimal(h) == NatToString(whole) + "." + [DigitChar(tenth)]
  {
  }

  lemma AmountDigits()
    ensures NatToString(1500) + "." + [DigitChar(5)] == "1500.5"
  {
    assert NatToString(15) == "15" by { assert NatToString(1) == "1"; }
    assert NatToString(150) == "150";
  }

  /** `${value || ''}`: a falsy value prints as nothing, any other as JavaScript prints it. */
  function Render(v: Value): (s: string)
    ensures Falsy(v) ==> s == ""
    ensures v.Str? && !Falsy(v) ==> s == v.s
    ensures !v.Str? ==> forall i :: 0 <= i < |s| ==> NumberChar(s[i])
  {
    if Falsy(v) then ""
    else match v
      case Null => ""
      case Int(i) => IntToString(i)
      case Decimal(h) => DecimalText(h)
      case Str(s) => s
  }

  /** `Object.keys(record)`. */
  function Keys(r: Record): (ks: seq<string>)
    ensures |ks| == |r| && forall j :: 0 <= j < |r| ==> ks[j] == r[j].0
  {
    seq(|r|, j requires 0 <= j < |r| => r[j].0)
  }

  /** `record[key]`: the value of the first column with that name; `undefined`, falsy like NULL, if there is none. */
  function Lookup(r: Record, key: string): (v: Value)
    ensures v == Null || exists j :: 0 <= j < |r| && r[j] == (key, v)
    ensures (forall j :: 0 <= j < |r| ==> r[j].0 != key) ==> v == Null
    ensures r != [] && r[0].0 == key ==> v == r[0].1
  {
    if r == [] then Null
    else if r[0].0 == key then r[0].1
    else
      var v := Lookup(r[1..], key);
      assert forall j :: 0 <= j < |r| - 1 ==> r[1..][j] == r[j + 1];
      v
  }

  /** One field: the rendered value between double quotes, embedded quotes left as they are. */
  function Field(r: Record, header: string): string
  {
    "\"" + Render(Lookup(r, header)) + "\""
  }

  function Fields(r: Record, headers: seq<string>): (fs: seq<string>)
    ensures |fs| == |headers| && forall j :: 0 <= j < |headers| ==> fs[j] == Field(r, headers[j])
  {
    seq(|headers|, j requires 0 <= j < |headers| => Field(r, headers[j]))
  }

  /** `headers.map(h => `"${row[h] || ''}"`).join(',')`. */
  function Line(r: Record, headers: seq<string>): string
  {
    Join(Fields(r, headers), ',')
  }

  function Lines(data: seq<Record>, headers: seq<string>): (ls: seq<string>)
    ensures |ls| == |data| && forall i :: 0 <= i < |data| ==> ls[i] == Line(data[i], headers)
  {
    seq(|data|, i requires 0 <= i < |data| => Line(data[i], headers))
  }

  /** The CSV text of a non-empty result: the keys of the first record, then a line per record. */
  function Csv(data: seq<Record>): string
    requires data != []
  {
    var headers := Keys(data[0]);
    Join([Join(headers, ',')] + Lines(data, headers), '\n')
  }

  // ------------------------------------------------------------ its shape

  /** No printed value holds character `c`. */
  predicate FreeOf(data: seq<Record>, c: char)
  {
    forall i, j :: 0 <= i < |data| && 0 <= j < |data[i]| ==> c !in Render(data[i][j].1)
  }

  /** A character that is not the separator and in no piece is not in the joined text. */
  lemma {:induction false} NotInJoin(parts: seq<string>, sep: char, c: char)
    requires c != sep
    requires forall i :: 0 <= i < |parts| ==> c !in parts[i]
    ensures c !in Join(parts, sep)
  {
    if |parts| > 1 {
      NotInJoin(parts[1..], sep, c);
    }
  }

  lemma LineFreeOf(r: Record, headers: seq<string>, c: char)
    requires c != ',' && c != '"'
    requires forall j :: 0 <= j < |r| ==> c !in Render(r[j].1)
    ensures c !in Line(r, headers)
  {
    var fs := Fields(r, headers);
    forall j | 0 <= j < |fs| ensures c !in fs[j] {
      var v := Lookup(r, headers[j]);
      assert c !in Render(v);
    }
    NotInJoin(fs, ',', c);
  }

  /**
   * When no value and no header holds a line feed, the text splits back
   * into the header line and one line per record: `n + 1` lines for `n`
   * records.
   */
  lemma CsvLines(data: seq<Record>)
    requires data != [] && FreeOf(data, '\n')
    requires '\n' !in Join(Keys(data[0]), ',')
    ensures Split(Csv(data), '\n') == [Join(Keys(data[0]), ',')] + Lines(data, Keys(data[0]))
    ensures |Split(Csv(data), '\n')| == |data| + 1
  {
    var headers := Keys(data[0]);
    LinesFreeOf(data, headers, Lines(data, headers));
    SplitJoin([Join(headers, ',')] + Lines(data, headers), '\n');
  }

  lemma LinesFreeOf(data: seq<Record>, headers: seq<string>, ls: seq<string>)
    requires FreeOf(data, '\n')
    requires ls == Lines(data, headers)
    ensures forall i :: 0 <= i < |ls| ==> '\n' !in ls[i]
  {
    forall i | 0 <= i < |ls| ensures '\n' !in ls[i] {
      LineFreeOf(data[i], headers, '\n');
    }
  }

  /**
   * When no value holds a comma, a line splits back into one quoted field
   * per header, in header order; a falsy or missing value gives `""`.
   */
  lemma LineFields(r: Record, headers: seq<string>)
    requires headers != []
    requires forall j :: 0 <= j < |r| ==> ',' !in Render(r[j].1)
    ensures |Split(Line(r, headers), ',')| == |headers|
    ensures forall j :: 0 <= j < |headers| ==>
      Split(Line(r, headers), ',')[j] == "\"" + Render(Lookup(r, headers[j])) + "\""
    ensures forall j :: 0 <= j < |headers| && Falsy(Lookup(r, headers[j])) ==>
      Split(Line(r, headers), ',')[j] == "\"\""
  {
    var fs := Fields(r, headers);
    forall j | 0 <= j < |fs| ensures ',' !in fs[j] {
      var v := Lookup(r, headers[j]);
      assert ',' !in Render(v);
    }
    SplitJoin(fs, ',');
  }

  /** A quote inside a value is written as it is, so the field it ends up in holds three quotes. */
  lemma QuoteNotDoubled()
    ensures Field([("product_name", Str("12\" pizza"))], "product_name") == "\"12\" pizza\""
  {
  }

  // ------------------------------------------------------ the exported rows

  /** A value printed with digits, signs, points and dashes only: no separator of the CSV. */
  predicate Plain(v: Value)
  {
    !v.Str? || forall i :: 0 <= i < |v.s| ==> IsDigit(v.s[i]) || v.s[i] == '-'
  }

  lemma PlainRender(v: Value)
    requires Plain(v)
    ensures '\n' !in Render(v) && ',' !in Render(v)
  {
    var s := Render(v);
    forall i | 0 <= i < |s| ensures s[i] != '\n' && s[i] != ',' {
      if v.Str? {
        assert s[i] == v.s[i];
      }
    }
  }

  /** The `DATE()` text of a day number, NULL outside the years 0000 to 9999. */
  function DateValue(n: int): (v: Value)
    ensures Plain(v)
    ensures v.Null? || (v.Str? && |v.s| == 10)
  {
    var d := CivilDate(n);
    if 0 <= d.year <= 9999 then Str(IsoDate(d)) else Null
  }

  /** A record with the given column names and values, in that order. */
  function Columns(names: seq<string>, values: seq<Value>): (r: Record)
    requires |names| == |values|
    ensures Keys(r) == names
    ensures forall j :: 0 <= j < |r| ==> r[j] == (names[j], values[j])
  {
    seq(|names|, j requires 0 <= j < |names| => (names[j], values[j]))
  }

  /** With distinct column names, looking a name up finds its own value. */
  lemma {:induction false} LookupColumn(names: seq<string>, values: seq<Value>, j: int)
    requires |names| == |values| && 0 <= j < |names|
    requires forall a, b :: 0 <= a < b < |names| ==> names[a] != names[b]
    ensures Lookup(Columns(names, values), names[j]) == values[j]
  {
    if j > 0 {
      LookupColumn(names[1..], values[1..], j - 1);
      assert Columns(names, values)[1..] == Columns(names[1..], values[1..]);
    }
  }

  const SalesColumns := ["date", "sales_count", "total_revenue"]
  const ConversationColumns := ["date", "conversation_count", "completed_count"]
  const ProductColumns := ["product_name", "sales_count", "total_revenue"]
  const ObjectionColumns := ["objection_type", "count", "handled_count", "success_rate"]

  function SalesRecord(p: SalesPoint): Record
  {
    Columns(SalesColumns, [DateValue(p.date), Int(p.salesCount), Decimal(p.totalRevenue)])
  }

  function ConversationRecord(p: ConversationPoint): Record
  {
    Columns(ConversationColumns, [DateValue(p.date), Int(p.conversationCount), Int(p.completedCount)])
  }

  /** A product without confirmed sales has a NULL revenue. */
  function ProductRecord(r: ProductRow): Record
  {
    Columns(ProductColumns, [Str(r.productName), Int(r.salesCount), if r.totalRevenue.None? then Null else Decimal(r.totalRevenue.value)])
  }

  function ObjectionRecord(r: ObjectionRow): Record
  {
    Columns(ObjectionColumns, [Str(r.objectionType), Int(r.count), Int(r.handledCount), Decimal(r.successRate)])
  }

  function SalesRecords(ps: seq<SalesPoint>): (rs: seq<Record>)
    ensures |rs| == |ps| && forall i :: 0 <= i < |ps| ==> rs[i] == SalesRecord(ps[i])
  {
    seq(|ps|, i requires 0 <= i < |ps| => SalesRecord(ps[i]))
  }

  function ConversationRecords(ps: seq<ConversationPoint>): (rs: seq<Record>)
    ensures |rs| == |ps| && forall i :: 0 <= i < |ps| ==> rs[i] == ConversationRecord(ps[i])
  {
    seq(|ps|, i requires 0 <= i < |ps| => ConversationRecord(ps[i]))
  }

  function ProductRecords(rows: seq<ProductRow>): (rs: seq<Record>)
    ensures |rs| == |rows| && forall i :: 0 <= i < |rows| ==> rs[i] == ProductRecord(rows[i])
  {
    seq(|rows|, i requires 0 <= i < |rows| => ProductRecord(rows[i]))
  }

  function ObjectionRecords(rows: seq<ObjectionRow>): (rs: seq<Record>)
    ensures |rs| == |rows| && forall i :: 0 <= i < |rows| ==> rs[i] == ObjectionRecord(rows[i])
  {
    seq(|rows|, i requires 0 <= i < |rows| => ObjectionRecord(rows[i]))
  }

  /** Every value of a record is a number, a date text or NULL. */
  predicate PlainRecord(r: Record)
  {
    forall j :: 0 <= j < |r| ==> Plain(r[j].1)
  }

  /** Every value of a series prints without a line feed. */
  lemma SeriesRecordsFree(data: seq<Record>)
    requires forall i :: 0 <= i < |data| ==> PlainRecord(data[i])
    ensures FreeOf(data, '\n')
  {
    forall i, j | 0 <= i < |data| && 0 <= j < |data[i]| ensures '\n' !in Render(data[i][j].1) {
      PlainRender(data[i][j].1);
    }
  }

  /** A record of three plain values has only plain values. */
  lemma PlainColumns(names: seq<string>, a: Value, b: Value, c: Value, r: Record)
    requires |names| == 3 && Plain(a) && Plain(b) && Plain(c)
    requires r == Columns(names, [a, b, c])
    ensures PlainRecord(r)
  {
  }

  lemma SalesRecordsPlain(ps: seq<SalesPoint>, data: seq<Record>)
    requires data == SalesRecords(ps)
    ensures forall i :: 0 <= i < |data| ==> PlainRecord(data[i])
  {
    forall i | 0 <= i < |data| ensures PlainRecord(data[i]) {
      SalesRecordPlain(ps[i], data[i]);
    }
  }

  lemma SalesRecordPlain(p: SalesPoint, r: Record)
    requires r == SalesRecord(p)
    ensures PlainRecord(r)
  {
    PlainColumns(SalesColumns, DateValue(p.date), Int(p.salesCount), Decimal(p.totalRevenue), r);
  }

  lemma ConversationRecordsPlain(ps: seq<ConversationPoint>, data: seq<Record>)
    requires data == ConversationRecords(ps)
    ensures forall i :: 0 <= i < |data| ==> PlainRecord(data[i])
  {
    forall i | 0 <= i < |data| ensures PlainRecord(data[i]) {
      ConversationRecordPlain(ps[i], data[i]);
    }
  }

  lemma ConversationRecordPlain(p: ConversationPoint, r: Record)
    requires r == ConversationRecord(p)
    ensures PlainRecord(r)
  {
    PlainColumns(ConversationColumns, DateValue(p.date), Int(p.conversationCount), Int(p.completedCount), r);
  }

  /** A header line of column names without line feeds has no line feed. */
  lemma HeaderFree(names: seq<string>)
    requires forall j :: 0 <= j < |names| ==> '\n' !in names[j]
    ensures '\n' !in Join(names, ',')
  {
    NotInJoin(names, ',', '\n');
  }

  lemma SalesHeader()
    ensures Join(SalesColumns, ',') == "date,sales_count,total_revenue"
    ensures '\n' !in Join(SalesColumns, ',')
  {
    ColumnNamesFree(SalesColumns);
    JoinThree("date", "sales_count", "total_revenue", ',');
    SalesHeaderText("date", "sales_count", "total_revenue");
  }

  lemma SalesHeaderText(a: string, b: string, c: string)
    requires a == "date" && b == "sales_count" && c == "total_revenue"
    ensures a + [','] + b + [','] + c == "date,sales_count,total_revenue"
  {
    assert a + [','] == "date,";
    var ab := a + [','] + b;
    assert ab == "date,sales_count";
    assert ab + [','] == "date,sales_count,";
  }

  lemma ConversationHeader()
    ensures Join(ConversationColumns, ',') == "date,conversation_count,completed_count"
    ensures '\n' !in Join(ConversationColumns, ',')
  {
    ColumnNamesFree(ConversationColumns);
    JoinThree("date", "conversation_count", "completed_count", ',');
    ConversationHeaderText("date", "conversation_count", "completed_count");
  }

  lemma ConversationHeaderText(a: string, b: string, c: string)
    requires a == "date" && b == "conversation_count" && c == "completed_count"
    ensures a + [','] + b + [','] + c == "date,conversation_count,completed_count"
  {
    assert a + [','] == "date,";
    var ab := a + [','] + b;
    assert ab == "date,conversation_count";
    assert ab + [','] == "date,conversation_count,";
  }

  /** Column names in lower-case letters and underscores: none holds a line feed, nor does their header line. */
  lemma ColumnNamesFree(names: seq<string>)
    requires forall j, i :: 0 <= j < |names| && 0 <= i < |names[j]| ==> 'a' <= names[j][i] <= 'z' || names[j][i] == '_'
    ensures '\n' !in Join(names, ',')
  {
    HeaderFree(names);
  }

  /** The sales export: its header line, and one line per day of the series. */
  lemma SalesCsvShape(ps: seq<SalesPoint>)
    requires ps != []
    ensures Split(Csv(SalesRecords(ps)), '\n')[0] == "date,sales_count,total_revenue"
    ensures |Split(Csv(SalesRecords(ps)), '\n')| == |ps| + 1
  {
    var data := SalesRecords(ps);
    SalesRecordsPlain(ps, data);
    SeriesRecordsFree(data);
    assert Keys(data[0]) == SalesColumns;
    SalesHeader();
    CsvLines(data);
  }

  /** The conversations export: its header line, and one line per day of the series. */
  lemma ConversationCsvShape(ps: seq<ConversationPoint>)
    requires ps != []
    ensures Split(Csv(ConversationRecords(ps)), '\n')[0] == "date,conversation_count,completed_count"
    ensures |Split(Csv(ConversationRecords(ps)), '\n')| == |ps| + 1
  {
    var data := ConversationRecords(ps);
    ConversationRecordsPlain(ps, data);
    SeriesRecordsFree(data);
    assert Keys(data[0]) == ConversationColumns;
    ConversationHeader();
    CsvLines(data);
  }

  lemma JoinThree(a: string, b: string, c: string, sep: char)
    ensures Join([a, b, c], sep) == a + [sep] + b + [sep] + c
  {
    assert [a, b, c][1..] == [b, c];
    assert [b, c][1..] == [c];
    assert Join([b, c], sep) == b + [sep] + c;
    assert Join([a, b, c], sep) == a + [sep] + (b + [sep] + c);
  }

  /** A product with no confirmed sale exports its name and two blank fields: count 0 and NULL revenue are falsy. */
  lemma UnsoldProductFields(r: ProductRow)
    requires r.salesCount == 0 && r.totalRevenue.None? && ',' !in r.productName
    ensures Split(Line(ProductRecord(r), ProductColumns), ',') == ["\"" + r.productName + "\"", "\"\"", "\"\""]
  {
    var values := [Str(r.productName), Int(0), Null];
    var rec := ProductRecord(r);
    assert rec == Columns(ProductColumns, values);
    LookupColumn(ProductColumns, values, 0);
    LookupColumn(ProductColumns, values, 1);
    LookupColumn(ProductColumns, values, 2);
    assert forall j :: 0 <= j < |rec| ==> rec[j].1 == values[j];
    LineFields(rec, ProductColumns);
    var fields := Split(Line(rec, ProductColumns), ',');
    assert fields[0] == "\"" + r.productName + "\"";
    assert fields[1] == "\"\"" && fields[2] == "\"\"";
  }
}
