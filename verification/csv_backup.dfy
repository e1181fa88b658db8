/** The CSV backup of the local store: one `key;"value"` row per non-empty
    stored collection under a `Key;Value` header, and the import that reads
    such a file back line by line. The store is a map from storage key to
    the stored JSON text. */
module CsvBackup {
  import opened Text

  const CategoriesKey: string := "finances_2026_categories"
  const TransactionsKey: string := "finances_2026_transactions"
  const PaymentMethodsKey: string := "finances_2026_payment_methods"
  const BankAccountsKey: string := "finances_2026_bank_accounts"
  const ClosingDaysKey: string := "finances_2026_cc_closing_days"
  const RecurringBillsKey: string := "finances_2026_recurring_bills"
  const CopyrightImageKey: string := "finances_2026_copyright_image"

  /** The keys a backup carries, in export order. */
  const AllKeys: seq<string> := [CategoriesKey, TransactionsKey, PaymentMethodsKey, BankAccountsKey,
                                 ClosingDaysKey, RecurringBillsKey, CopyrightImageKey]

  const Header: string := "Key;Value"

  /** The byte-order mark written before the header so spreadsheets read UTF-8. */
  const Bom: char := '\U{FEFF}'

  const Quote: char := '"'

  /** Every quote of the value written twice, everything else kept. */
  function DoubleQuotes(v: string): (r: string)
    ensures forall c :: c != Quote ==> (c in r <==> c in v)
  {
    if v == [] then []
    else (if v[0] == Quote then [Quote, Quote] else [v[0]]) + DoubleQuotes(v[1..])
  }

  /** The stored text wrapped in quotes with inner quotes doubled. */
  function Escape(v: string): (r: string)
    ensures |r| >= 2 && r[0] == Quote && r[|r| - 1] == Quote
    ensures forall c :: c != Quote ==> (c in r <==> c in v)
  {
    [Quote] + DoubleQuotes(v) + [Quote]
  }

  /** Pairs of quotes, matched left to right without overlap, become one
      quote; everything else is kept. */
  function CollapseQuotes(v: string): string {
    if v == [] then []
    else if |v| >= 2 && v[0] == Quote && v[1] == Quote then [Quote] + CollapseQuotes(v[2..])
    else [v[0]] + CollapseQuotes(v[1..])
  }

  /** The import's unescape: a value that starts and ends with a quote loses
      them (a lone quote becomes empty) and has its doubled quotes collapsed;
      any other value is kept as it is. */
  function Unquote(value: string): (r: string)
    ensures !(StartsWith(value, [Quote]) && EndsWith(value, [Quote])) ==> r == value
  {
    if StartsWith(value, [Quote]) && EndsWith(value, [Quote]) then
      if |value| < 2 then [] else CollapseQuotes(value[1..|value| - 1])
    else value
  }

  lemma {:induction false} CollapseDoubled(v: string)
    ensures CollapseQuotes(DoubleQuotes(v)) == v
  {
    if v != [] {
      CollapseDoubled(v[1..]);
      var rest := DoubleQuotes(v[1..]);
      if v[0] == Quote {
        assert DoubleQuotes(v) == [Quote, Quote] + rest;
        assert (DoubleQuotes(v))[2..] == rest;
      } else {
        assert DoubleQuotes(v) == [v[0]] + rest;
        assert (DoubleQuotes(v))[1..] == rest;
      }
    }
  }

  /** Unescaping an escaped value gives the value back. */
  lemma UnquoteEscape(v: string)
    ensures Unquote(Escape(v)) == v
  {
    var e := Escape(v);
    assert e[..1] == [Quote];
    assert e[|e| - 1..] == [Quote];
    assert e[1..|e| - 1] == DoubleQuotes(v);
    CollapseDoubled(v);
  }

  /** The characters `String.prototype.trim` removes: white space and line
      terminators. */
  predicate IsJsSpace(c: char) {
    c == '\t' || c == '\n' || c == '\U{000B}' || c == '\U{000C}' || c == '\r' || c == ' ' ||
    c == '\U{00A0}' || c == '\U{1680}' || ('\U{2000}' <= c <= '\U{200A}') ||
    c == '\U{2028}' || c == '\U{2029}' || c == '\U{202F}' || c == '\U{205F}' ||
    c == '\U{3000}' || c == '\U{FEFF}'
  }

  function TrimStart(s: string): (r: string)
    ensures |r| <= |s| && r == s[|s| - |r|..]
    ensures r == [] || !IsJsSpace(r[0])
    ensures s != [] && !IsJsSpace(s[0]) ==> r == s
  {
    if s != [] && IsJsSpace(s[0]) then TrimStart(s[1..]) else s
  }

  function TrimEnd(s: string): (r: string)
    ensures |r| <= |s| && r == s[..|r|]
    ensures r == [] || !IsJsSpace(r[|r| - 1])
    ensures s != [] && !IsJsSpace(s[|s| - 1]) ==> r == s
  {
    if s != [] && IsJsSpace(s[|s| - 1]) then TrimEnd(s[..|s| - 1]) else s
  }

  /** `trim()`. */
  function Trim(s: string): (r: string)
    ensures r == [] || (!IsJsSpace(r[0]) && !IsJsSpace(r[|r| - 1]))
    ensures s != [] && !IsJsSpace(s[0]) && !IsJsSpace(s[|s| - 1]) ==> r == s
  {
    var t := TrimStart(s);
    var r := TrimEnd(t);
    assert r != [] ==> r[0] == t[0];
    r
  }

  /** `indexOf(c)`: the first position of `c`, or -1. */
  function IndexOf(s: string, c: char): (r: int)
    ensures -1 <= r < |s|
    ensures r >= 0 ==> s[r] == c && forall j :: 0 <= j < r ==> s[j] != c
    ensures r < 0 <==> c !in s
  {
    if s == [] then -1
    else if s[0] == c then 0
    else
      var k := IndexOf(s[1..], c);
      if k < 0 then -1 else k + 1
  }

  /** `split(sep)`: the pieces between separators; there is always at least one. */
  function Split(s: string, sep: char): (r: seq<string>)
    ensures |r| >= 1
    ensures forall j :: 0 <= j < |r| ==> sep !in r[j]
    decreases |s|
  {
    var i := IndexOf(s, sep);
    if i < 0 then [s]
    else
      var head := s[..i];
      assert sep !in head by {
        forall j | 0 <= j < |head|
          ensures head[j] != sep
        {
          assert head[j] == s[j];
        }
      }
      var rest := Split(s[i + 1..], sep);
      var r := [head] + rest;
      assert forall j :: 1 <= j < |r| ==> r[j] == rest[j - 1];
      r
  }

  /** `join(sep)` of a non-empty list. */
  function Join(lines: seq<string>, sep: char): string
    requires |lines| >= 1
  {
    if |lines| == 1 then lines[0] else lines[0] + [sep] + Join(lines[1..], sep)
  }

  /** Splitting a join at a separator no piece contains gives the pieces back. */
  lemma {:induction false} SplitJoin(lines: seq<string>, sep: char)
    requires |lines| >= 1
    requires forall j :: 0 <= j < |lines| ==> sep !in lines[j]
    ensures Split(Join(lines, sep), sep) == lines
  {
    if |lines| > 1 {
      var s := Join(lines, sep);
      var rest := Join(lines[1..], sep);
      assert s == lines[0] + [sep] + rest;
      IndexOfAfter(lines[0], sep, rest);
      assert s[..|lines[0]|] == lines[0];
      assert s[|lines[0]| + 1..] == rest;
      SplitJoin(lines[1..], sep);
      assert lines == [lines[0]] + lines[1..];
    }
  }

  lemma IndexOfAfter(a: string, c: char, b: string)
    requires c !in a
    ensures IndexOf(a + [c] + b, c) == |a|
  {
    var s := a + [c] + b;
    assert s[|a|] == c;
    assert forall j :: 0 <= j < |a| ==> s[j] == a[j];
    assert forall j :: 0 <= j < |a| ==> s[j] != c;
  }

  /** A storage key that survives a CSV line: non-empty, not starting with
      white space, and free of separators. */
  predicate ValidKey(k: string) {
    k != [] && !IsJsSpace(k[0]) && ';' !in k && '\n' !in k
  }

  lemma AllKeysValid()
    ensures forall k :: k in AllKeys ==> ValidKey(k)
  {
    StoreKeysValid();
    SettingKeysValid();
  }

  lemma StoreKeysValid()
    ensures ValidKey(CategoriesKey) && ValidKey(TransactionsKey)
    ensures ValidKey(PaymentMethodsKey) && ValidKey(BankAccountsKey)
  {
    assert ValidKey(CategoriesKey);
    assert ValidKey(TransactionsKey);
    assert ValidKey(PaymentMethodsKey);
  }

  lemma SettingKeysValid()
    ensures ValidKey(ClosingDaysKey) && ValidKey(RecurringBillsKey) && ValidKey(CopyrightImageKey)
  {
    assert ValidKey(ClosingDaysKey);
    assert ValidKey(RecurringBillsKey);
  }

  /** One exported row: `${key};"${escaped value}"`. */
  function Row(key: string, v: string): string {
    key + ";" + Escape(v)
  }

  /** The import's handling of one line after the header: trim it, skip it
      when empty or without ';', split it at the first ';', unescape the
      value, and store it when the key is one of the backup keys. */
  function ImportLine(store: map<string, string>, line: string): (r: map<string, string>)
    ensures forall k :: k in store ==> k in r
    ensures forall k :: k in r ==> k in store || k in AllKeys
    ensures forall k :: k in store && k !in AllKeys ==> r[k] == store[k]
  {
    var l := Trim(line);
    if l == [] then store
    else
      var idx := IndexOf(l, ';');
      if idx < 0 then store
      else
        var key := l[..idx];
        if key in AllKeys then store[key := Unquote(l[idx + 1..])] else store
  }

  /** A row written by the export reads back as its key and value. */
  lemma ImportRow(store: map<string, string>, key: string, v: string)
    requires ValidKey(key) && key in AllKeys
    ensures ImportLine(store, Row(key, v)) == store[key := v]
  {
    var row := Row(key, v);
    assert row[0] == key[0];
    assert row[|row| - 1] == Escape(v)[|Escape(v)| - 1];
    assert Trim(row) == row;
    assert row == key + [';'] + Escape(v);
    IndexOfAfter(key, ';', Escape(v));
    assert row[..|key|] == key;
    assert row[|key| + 1..] == Escape(v);
    UnquoteEscape(v);
  }

  function ImportLines(store: map<string, string>, lines: seq<string>): map<string, string>
    decreases |lines|
  {
    if lines == [] then store else ImportLines(ImportLine(store, lines[0]), lines[1..])
  }

  lemma {:induction false} ImportLinesConcat(store: map<string, string>, a: seq<string>, b: seq<string>)
    ensures ImportLines(store, a + b) == ImportLines(ImportLines(store, a), b)
    decreases |a|
  {
    if a == [] {
      assert a + b == b;
    } else {
      assert (a + b)[1..] == a[1..] + b;
      ImportLinesConcat(ImportLine(store, a[0]), a[1..], b);
    }
  }

  /** A stored value is written only when present and non-empty (`if (value)`). */
  predicate Exported(src: map<string, string>, k: string) {
    k in src && src[k] != []
  }

  function ExportRows(src: map<string, string>, keys: seq<string>): (r: seq<string>)
    ensures |r| <= |keys|
  {
    if keys == [] then []
    else (if Exported(src, keys[0]) then [Row(keys[0], src[keys[0]])] else []) + ExportRows(src, keys[1..])
  }

  /** `exportSystemDataToCSV`'s file text: the byte-order mark, then the
      header and the rows joined by newlines. */
  function Export(src: map<string, string>): string {
    [Bom] + Join([Header] + ExportRows(src, AllKeys), '\n')
  }

  datatype ImportResult = Invalid | Imported(store: map<string, string>)

  /** `importSystemDataFromCSV`: a file whose first line lacks the header is
      refused and nothing is written; otherwise every later line is applied
      in order. */
  function Import(store: map<string, string>, text: string): (r: ImportResult)
    ensures r.Invalid? <==> !Contains(Split(text, '\n')[0], Header)
    ensures r.Imported? ==> forall k :: k in store && k !in AllKeys ==> k in r.store && r.store[k] == store[k]
  {
    var lines := Split(text, '\n');
    if !Contains(lines[0], Header) then Invalid
    else
      var r := ImportLines(store, lines[1..]);
      ImportLinesKeepsOthers(store, lines[1..]);
      Imported(r)
  }

  lemma {:induction false} ImportLinesKeepsOthers(store: map<string, string>, lines: seq<string>)
    ensures forall k :: k in store && k !in AllKeys ==> k in ImportLines(store, lines) && ImportLines(store, lines)[k] == store[k]
    decreases |lines|
  {
    if lines != [] {
      ImportLinesKeepsOthers(ImportLine(store, lines[0]), lines[1..]);
    }
  }

  /** What restoring a backup of `src` into `store` should give: every
      exported key takes its value from `src`; everything else is kept. */
  function Restore(store: map<string, string>, src: map<string, string>, keys: seq<string>): (r: map<string, string>)
    ensures forall k :: k in r <==> k in store || (k in keys && Exported(src, k))
    ensures forall k :: k in r ==> r[k] == (if k in keys && Exported(src, k) then src[k] else store[k])
    decreases |keys|
  {
    if keys == [] then store
    else
      var next := if Exported(src, keys[0]) then store[keys[0] := src[keys[0]]] else store;
      Restore(next, src, keys[1..])
  }

  lemma {:induction false} ImportExportedRows(store: map<string, string>, src: map<string, string>, keys: seq<string>)
    requires forall k :: k in keys ==> k in AllKeys && ValidKey(k)
    ensures ImportLines(store, ExportRows(src, keys)) == Restore(store, src, keys)
    decreases |keys|
  {
    if keys != [] {
      var k := keys[0];
      var first := if Exported(src, k) then [Row(k, src[k])] else [];
      var next := if Exported(src, k) then store[k := src[k]] else store;
      ImportLinesConcat(store, first, ExportRows(src, keys[1..]));
      if Exported(src, k) {
        ImportRow(store, k, src[k]);
        assert ImportLines(store, first) == ImportLines(ImportLine(store, Row(k, src[k])), []);
      }
      assert ImportLines(store, first) == next;
      ImportExportedRows(next, src, keys[1..]);
    }
  }

  lemma {:induction false} ExportRowsHaveNoNewline(src: map<string, string>, keys: seq<string>)
    requires forall k :: k in keys ==> ValidKey(k)
    requires forall k :: k in keys && Exported(src, k) ==> '\n' !in src[k]
    ensures forall j :: 0 <= j < |ExportRows(src, keys)| ==> '\n' !in ExportRows(src, keys)[j]
    decreases |keys|
  {
    if keys != [] {
      ExportRowsHaveNoNewline(src, keys[1..]);
      var k := keys[0];
      if Exported(src, k) {
        var row := Row(k, src[k]);
        assert row == k + ";" + Escape(src[k]);
        assert '\n' !in Escape(src[k]);
        assert '\n' !in row;
      }
    }
  }

  /** The BOM can be moved into the first line. */
  lemma JoinWithPrefix(c: char, lines: seq<string>, sep: char)
    requires |lines| >= 1
    ensures [c] + Join(lines, sep) == Join([[c] + lines[0]] + lines[1..], sep)
  {
    var m := [[c] + lines[0]] + lines[1..];
    assert m[1..] == lines[1..];
  }

  /** Restoring a backup: importing the exported file of `src` into any store
      refreshes every backed-up key that held a value and leaves all other
      entries alone, provided no stored text holds a raw newline (stored
      texts are `JSON.stringify` output, which escapes newlines). */
  lemma ExportImportRoundTrip(store: map<string, string>, src: map<string, string>)
    requires forall k :: k in AllKeys && Exported(src, k) ==> '\n' !in src[k]
    ensures Import(store, Export(src)) == Imported(Restore(store, src, AllKeys))
  {
    AllKeysValid();
    var rows := ExportRows(src, AllKeys);
    var lines := [[Bom] + Header] + rows;
    JoinWithPrefix(Bom, [Header] + rows, '\n');
    assert ([Header] + rows)[1..] == rows;
    assert Export(src) == Join(lines, '\n');
    ExportRowsHaveNoNewline(src, AllKeys);
    assert '\n' !in [Bom] + Header;
    SplitJoin(lines, '\n');
    assert Split(Export(src), '\n') == lines;
    assert lines[0][1..] == Header;
    ContainsAt(lines[0], 1, Header);
    assert lines[1..] == rows;
    ImportExportedRows(store, src, AllKeys);
  }
}
