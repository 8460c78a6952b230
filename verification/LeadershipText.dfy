/** The text form of the leadership metadata: one line of five tab-separated fields per partition. */
module LeadershipText {
  import opened Wrappers
  import opened Cluster

  const U32_MAX: nat := 0xFFFF_FFFF

  type Key = (string, nat)
  type Entries = map<Key, Entry>

  // ---------------------------------------------------------------- decimal numbers

  function Digit(d: nat): char
    requires d < 10
  {
    "0123456789"[d]
  }

  predicate IsDigit(c: char) {
    '0' <= c <= '9'
  }

  function Decimal(n: nat): (s: string)
    ensures s != "" && forall c :: c in s ==> IsDigit(c)
  {
    if n < 10 then [Digit(n)] else Decimal(n / 10) + [Digit(n % 10)]
  }

  function DigitsValue(s: string): (n: nat)
    requires forall c :: c in s ==> IsDigit(c)
  {
    if s == "" then 0
    else
      assert s[|s| - 1] in s && IsDigit(s[|s| - 1]);
      10 * DigitsValue(s[..|s| - 1]) + (s[|s| - 1] as int - '0' as int)
  }

  /** `str::parse` for an unsigned type with maximum `max`: one `+` may stand in front. */
  function ParseUnsigned(s: string, max: nat): Option<nat> {
    var digits := if s != "" && s[0] == '+' then s[1..] else s;
    if digits == "" || exists c :: c in digits && !IsDigit(c) then None
    else if DigitsValue(digits) > max then None
    else Some(DigitsValue(digits))
  }

  lemma {:induction false} DigitsOfDecimal(n: nat)
    ensures DigitsValue(Decimal(n)) == n
  {
    if n >= 10 {
      DigitsOfDecimal(n / 10);
      assert Decimal(n)[..|Decimal(n)| - 1] == Decimal(n / 10);
    }
  }

  lemma ParseDecimal(n: nat, max: nat)
    ensures ParseUnsigned(Decimal(n), max) == if n <= max then Some(n) else None
  {
    DigitsOfDecimal(n);
    assert Decimal(n)[0] in Decimal(n);
  }

  // ---------------------------------------------------------------- lines and fields

  function IndexOf(s: string, c: char): (i: nat)
    ensures i <= |s|
    ensures c !in s[..i]
    ensures i < |s| ==> s[i] == c
  {
    if s == "" || s[0] == c then 0
    else
      assert s[..1 + IndexOf(s[1..], c)] == [s[0]] + s[1..][..IndexOf(s[1..], c)];
      1 + IndexOf(s[1..], c)
  }

  /** `str::split`. */
  function Fields(s: string, c: char): (parts: seq<string>)
    ensures parts != [] && forall part :: part in parts ==> c !in part && forall x :: x in part ==> x in s
    decreases |s|
  {
    var i := IndexOf(s, c);
    if i == |s| then
      assert s[..i] == s;
      [s]
    else [s[..i]] + Fields(s[i + 1..], c)
  }

  function WithoutReturn(line: string): string {
    if line != "" && line[|line| - 1] == '\r' then line[..|line| - 1] else line
  }

  /** `str::lines`. */
  function Lines(s: string): (lines: seq<string>)
    ensures forall line :: line in lines ==> '\n' !in line
    decreases |s|
  {
    var i := IndexOf(s, '\n');
    if s == "" then []
    else if i == |s| then
      assert s[..i] == s;
      [s]
    else [WithoutReturn(s[..i])] + Lines(s[i + 1..])
  }

  lemma {:induction false} IndexOfFirst(a: string, c: char, rest: string)
    requires c !in a
    ensures IndexOf(a + [c] + rest, c) == |a|
  {
    if a != "" {
      assert a[0] in a;
      assert (a + [c] + rest)[1..] == a[1..] + [c] + rest;
      IndexOfFirst(a[1..], c, rest);
    }
  }

  lemma FieldsFront(a: string, c: char, rest: string)
    requires c !in a
    ensures Fields(a + [c] + rest, c) == [a] + Fields(rest, c)
  {
    var s := a + [c] + rest;
    IndexOfFirst(a, c, rest);
    assert s[..|a|] == a && s[|a| + 1..] == rest;
  }

  lemma FieldsLast(a: string, c: char)
    requires c !in a
    ensures Fields(a, c) == [a]
  {
    assert forall i :: 0 <= i < |a| ==> a[i] in a;
  }

  function Join(parts: seq<string>, c: char): string
    requires parts != []
  {
    if |parts| == 1 then parts[0] else parts[0] + [c] + Join(parts[1..], c)
  }

  lemma {:induction false} FieldsOfJoin(parts: seq<string>, c: char)
    requires parts != [] && forall part :: part in parts ==> c !in part
    ensures Fields(Join(parts, c), c) == parts
  {
    assert parts[0] in parts;
    if |parts| == 1 {
      FieldsLast(parts[0], c);
    } else {
      FieldsFront(parts[0], c, Join(parts[1..], c));
      FieldsOfJoin(parts[1..], c);
    }
  }

  lemma LinesFront(line: string, rest: string)
    requires '\n' !in line && WithoutReturn(line) == line
    ensures Lines(line + "\n" + rest) == [line] + Lines(rest)
  {
    var s := line + ['\n'] + rest;
    IndexOfFirst(line, '\n', rest);
    assert s == line + "\n" + rest;
    assert s[..|line|] == line && s[|line| + 1..] == rest;
  }

  // ---------------------------------------------------------------- one entry per line

  predicate InRange(key: Key, e: Entry) {
    key.1 <= U32_MAX && e.leader <= U32_MAX && e.epoch <= U64_MAX && e.highWatermark <= U64_MAX
  }

  /** A line of the metadata file; a line without the fifth field is from before high watermarks were stored. */
  function ParseLine(line: string): Result<(Key, Entry), LeadershipError> {
    var fields := Fields(line, '\t');
    if |fields| < 4 then Failure(InvalidMetadata)
    else
      var partition := ParseUnsigned(fields[1], U32_MAX);
      var leader := ParseUnsigned(fields[2], U32_MAX);
      var epoch := ParseUnsigned(fields[3], U64_MAX);
      var highWatermark := if |fields| > 4 then ParseUnsigned(fields[4], U64_MAX) else Some(U64_MAX);
      if partition.None? || leader.None? || epoch.None? || highWatermark.None? || |fields| > 5 then Failure(InvalidMetadata)
      else Success(((fields[0], partition.value), Entry(leader.value, epoch.value, highWatermark.value)))
  }

  function ParseLines(lines: seq<string>, entries: Entries): Result<Entries, LeadershipError> {
    if lines == [] then Success(entries)
    else if lines[0] == "" then ParseLines(lines[1..], entries)
    else
      var (key, entry) :- ParseLine(lines[0]);
      ParseLines(lines[1..], entries[key := entry])
  }

  function Parse(contents: string): Result<Entries, LeadershipError> {
    ParseLines(Lines(contents), map[])
  }

  function FieldsFor(key: Key, e: Entry): seq<string> {
    [key.0, Decimal(key.1), Decimal(e.leader), Decimal(e.epoch), Decimal(e.highWatermark)]
  }

  function LineOf(key: Key, e: Entry): string {
    Join(FieldsFor(key, e), '\t')
  }

  /** The file with the entries of `keys`, in that order. */
  function Text(keys: seq<Key>, entries: Entries): string
    requires forall k :: k in keys ==> k in entries
  {
    if keys == [] then "" else LineOf(keys[0], entries[keys[0]]) + "\n" + Text(keys[1..], entries)
  }

  predicate CleanTopic(topic: string) {
    '\t' !in topic && '\n' !in topic
  }

  lemma DecimalIsPlain(n: nat, c: char)
    requires !IsDigit(c)
    ensures c !in Decimal(n) && WithoutReturn(Decimal(n)) == Decimal(n)
  {
    var s := Decimal(n);
    assert s[|s| - 1] in s;
  }

  lemma ParseLineOf(key: Key, e: Entry)
    requires '\t' !in key.0 && InRange(key, e)
    ensures ParseLine(LineOf(key, e)) == Success((key, e))
  {
    DecimalIsPlain(key.1, '\t');
    DecimalIsPlain(e.leader, '\t');
    DecimalIsPlain(e.epoch, '\t');
    DecimalIsPlain(e.highWatermark, '\t');
    FieldsOfJoin(FieldsFor(key, e), '\t');
    ParseDecimal(key.1, U32_MAX);
    ParseDecimal(e.leader, U32_MAX);
    ParseDecimal(e.epoch, U64_MAX);
    ParseDecimal(e.highWatermark, U64_MAX);
  }

  /** A number as it may be written: digits, with one plus sign in front or without. */
  predicate Writes10(s: string, n: nat) {
    var digits := if s != "" && s[0] == '+' then s[1..] else s;
    digits != "" && (forall c :: c in digits ==> IsDigit(c)) && DigitsValue(digits) == n
  }

  lemma ParsesNumberIff(s: string, max: nat)
    ensures forall n: nat :: ParseUnsigned(s, max) == Some(n) <==> Writes10(s, n) && n <= max
  {
  }

  /**
   Which lines are entries: a topic, a partition, a leader and an epoch, separated by tabs, and a high watermark, or none in
   files from before it was stored; each number within its type.
   */
  lemma LineParsesIff(parts: seq<string>, key: Key, e: Entry)
    requires parts != [] && forall part :: part in parts ==> '\t' !in part
    ensures ParseLine(Join(parts, '\t')) == Success((key, e)) <==>
            && InRange(key, e) && (|parts| == 4 || |parts| == 5)
            && parts[0] == key.0 && Writes10(parts[1], key.1) && Writes10(parts[2], e.leader) && Writes10(parts[3], e.epoch)
            && (if |parts| == 5 then Writes10(parts[4], e.highWatermark) else e.highWatermark == 0xFFFF_FFFF_FFFF_FFFF)
    ensures ParseLine(Join(parts, '\t')).Failure? ==> ParseLine(Join(parts, '\t')).error == InvalidMetadata
  {
    FieldsOfJoin(parts, '\t');
    if |parts| >= 4 {
      ParsesNumberIff(parts[1], U32_MAX);
      ParsesNumberIff(parts[2], U32_MAX);
      ParsesNumberIff(parts[3], U64_MAX);
      if |parts| > 4 {
        ParsesNumberIff(parts[4], U64_MAX);
      }
    }
  }

  /** One line that is no entry, and not empty, makes the whole file unreadable. */
  lemma {:induction false} BadLineFails(lines: seq<string>, i: nat, entries: Entries)
    requires i < |lines| && lines[i] != "" && ParseLine(lines[i]).Failure?
    ensures ParseLines(lines, entries) == Failure(InvalidMetadata)
  {
    if i > 0 {
      if lines[0] == "" {
        BadLineFails(lines[1..], i - 1, entries);
      } else if ParseLine(lines[0]).Success? {
        BadLineFails(lines[1..], i - 1, entries[ParseLine(lines[0]).value.0 := ParseLine(lines[0]).value.1]);
      }
    }
  }

  /** The line of an entry: its topic, and its numbers in decimal, in this order. */
  lemma LineHasFields(key: Key, e: Entry)
    requires '\t' !in key.0
    ensures var fields := Fields(LineOf(key, e), '\t');
            && |fields| == 5 && fields[0] == key.0
            && Writes10(fields[1], key.1) && Writes10(fields[2], e.leader) && Writes10(fields[3], e.epoch)
            && Writes10(fields[4], e.highWatermark)
            && forall i :: 1 <= i < 5 ==> fields[i][0] != '+'
  {
    NumbersHaveNoTab(key, e);
    FieldsOfJoin(FieldsFor(key, e), '\t');
    DecimalWrites(key.1);
    DecimalWrites(e.leader);
    DecimalWrites(e.epoch);
    DecimalWrites(e.highWatermark);
  }

  lemma NumbersHaveNoTab(key: Key, e: Entry)
    requires '\t' !in key.0
    ensures forall part :: part in FieldsFor(key, e) ==> '\t' !in part
  {
    DecimalIsPlain(key.1, '\t');
    DecimalIsPlain(e.leader, '\t');
    DecimalIsPlain(e.epoch, '\t');
    DecimalIsPlain(e.highWatermark, '\t');
  }

  lemma DecimalWrites(n: nat)
    ensures Writes10(Decimal(n), n) && Decimal(n)[0] != '+'
  {
    DigitsOfDecimal(n);
    assert Decimal(n)[0] in Decimal(n);
  }

  lemma {:induction false} JoinIsPlain(parts: seq<string>)
    requires parts != [] && forall part :: part in parts ==> '\n' !in part
    requires parts[|parts| - 1] != "" && WithoutReturn(parts[|parts| - 1]) == parts[|parts| - 1]
    ensures '\n' !in Join(parts, '\t') && Join(parts, '\t') != ""
    ensures WithoutReturn(Join(parts, '\t')) == Join(parts, '\t')
  {
    assert parts[0] in parts;
    if |parts| > 1 {
      JoinIsPlain(parts[1..]);
      var rest := Join(parts[1..], '\t');
      assert Join(parts, '\t')[|Join(parts, '\t')| - 1] == rest[|rest| - 1];
    }
  }

  lemma LineIsPlain(key: Key, e: Entry)
    requires '\n' !in key.0
    ensures '\n' !in LineOf(key, e) && WithoutReturn(LineOf(key, e)) == LineOf(key, e) && LineOf(key, e) != ""
  {
    DecimalIsPlain(key.1, '\n');
    DecimalIsPlain(e.leader, '\n');
    DecimalIsPlain(e.epoch, '\n');
    DecimalIsPlain(e.highWatermark, '\n');
    JoinIsPlain(FieldsFor(key, e));
  }

  ghost function Only(keys: seq<Key>, entries: Entries): (m: Entries)
    requires forall k :: k in keys ==> k in entries
    ensures (forall k :: k in keys <==> k in entries) ==> m == entries
  {
    map k | k in keys :: entries[k]
  }

  lemma OnlyStep(keys: seq<Key>, entries: Entries, before: Entries)
    requires keys != [] && forall k :: k in keys ==> k in entries
    ensures before + Only(keys, entries) == before[keys[0] := entries[keys[0]]] + Only(keys[1..], entries)
  {
    assert forall k :: k in keys <==> k == keys[0] || k in keys[1..];
  }

  /** Reading the lines of `keys` adds exactly their entries. */
  lemma {:induction false} ParseText(keys: seq<Key>, entries: Entries, before: Entries)
    requires forall k :: k in keys ==> k in entries && CleanTopic(k.0) && InRange(k, entries[k])
    ensures ParseLines(Lines(Text(keys, entries)), before)
            == Success(before + Only(keys, entries))
  {
    if keys == [] {
      assert before + Only(keys, entries) == before;
    } else {
      var key, rest := keys[0], keys[1..];
      var line := LineOf(key, entries[key]);
      LineIsPlain(key, entries[key]);
      LinesFront(line, Text(rest, entries));
      ParseLineOf(key, entries[key]);
      ParseText(rest, entries, before[key := entries[key]]);
      OnlyStep(keys, entries, before);
    }
  }

  /** Whatever text is read, no topic in it has a tab or a newline. */
  lemma {:induction false} ParsedTopicsAreClean(lines: seq<string>, before: Entries)
    requires forall line :: line in lines ==> '\n' !in line
    requires forall k :: k in before ==> CleanTopic(k.0)
    requires ParseLines(lines, before).Success?
    ensures forall k :: k in ParseLines(lines, before).value ==> CleanTopic(k.0)
  {
    if lines != [] {
      assert lines[0] in lines;
      if lines[0] == "" {
        ParsedTopicsAreClean(lines[1..], before);
      } else {
        var (key, entry) := ParseLine(lines[0]).value;
        assert key.0 in Fields(lines[0], '\t');
        ParsedTopicsAreClean(lines[1..], before[key := entry]);
      }
    }
  }

  // ---------------------------------------------------------------- the order of the lines

  predicate TextLe(a: string, b: string) {
    a == "" || (b != "" && (a[0] < b[0] || (a[0] == b[0] && TextLe(a[1..], b[1..]))))
  }

  predicate KeyLe(a: Key, b: Key) {
    TextLe(a.0, b.0) && (a.0 == b.0 ==> a.1 <= b.1)
  }

  /** The order of texts: a front part comes first, and otherwise the first different character decides. */
  lemma {:induction false} TextLeIff(a: string, b: string)
    ensures TextLe(a, b) <==> a <= b || exists i :: 0 <= i < |a| && i < |b| && a[..i] == b[..i] && a[i] < b[i]
  {
    if a != "" && b != "" && a[0] == b[0] {
      TextLeIff(a[1..], b[1..]);
      if TextLe(a, b) && !(a[1..] <= b[1..]) {
        var i :| 0 <= i < |a[1..]| && i < |b[1..]| && a[1..][..i] == b[1..][..i] && a[1..][i] < b[1..][i];
        assert a[..i + 1] == [a[0]] + a[1..][..i] && b[..i + 1] == [b[0]] + b[1..][..i];
        assert a[i + 1] < b[i + 1];
      }
      if i :| 0 <= i < |a| && i < |b| && a[..i] == b[..i] && a[i] < b[i] {
        assert a[1..][..i - 1] == a[..i][1..] && b[1..][..i - 1] == b[..i][1..];
        assert a[1..][i - 1] < b[1..][i - 1];
      }
      assert a <= b <==> a[1..] <= b[1..];
    } else if a != "" && b != "" {
      assert a[0] < b[0] ==> a[..0] == b[..0];
      forall i | 0 < i < |a| && i < |b|
        ensures a[..i] != b[..i]
      {
        assert a[..i][0] == a[0] && b[..i][0] == b[0];
      }
    }
  }

  lemma {:induction false} TextLeTotal(a: string, b: string)
    ensures TextLe(a, b) || TextLe(b, a)
    ensures TextLe(a, b) && TextLe(b, a) ==> a == b
  {
    if a != "" && b != "" && a[0] == b[0] {
      TextLeTotal(a[1..], b[1..]);
    }
  }

  lemma {:induction false} TextLeTransitive(a: string, b: string, c: string)
    requires TextLe(a, b) && TextLe(b, c)
    ensures TextLe(a, c)
  {
    if a != "" && a[0] == b[0] == c[0] {
      TextLeTransitive(a[1..], b[1..], c[1..]);
    }
  }

  lemma KeyLeTransitive(a: Key, b: Key, c: Key)
    requires KeyLe(a, b) && KeyLe(b, c)
    ensures KeyLe(a, c)
  {
    TextLeTransitive(a.0, b.0, c.0);
    TextLeTotal(a.0, b.0);
  }

  predicate InOrder(keys: seq<Key>) {
    forall i, j :: 0 <= i < j < |keys| ==> KeyLe(keys[i], keys[j])
  }

  function Insert(key: Key, keys: seq<Key>): (r: seq<Key>)
    requires InOrder(keys)
    ensures InOrder(r)
    ensures forall k :: k in r <==> k == key || k in keys
  {
    if keys == [] then [key]
    else if KeyLe(key, keys[0]) then
      assert forall i :: 0 <= i < |keys| ==> KeyLe(key, keys[i]) by {
        forall i | 1 <= i < |keys| { KeyLeTransitive(key, keys[0], keys[i]); }
      }
      [key] + keys
    else
      assert KeyLe(keys[0], key) by { TextLeTotal(key.0, keys[0].0); }
      var rest := Insert(key, keys[1..]);
      assert forall k :: k in rest ==> KeyLe(keys[0], k);
      assert forall i :: 0 <= i < |rest| ==> rest[i] in rest;
      [keys[0]] + rest
  }

  /** `text` is the file written for these entries: a line for each, in the order of their keys. */
  ghost predicate Writes(entries: Entries, text: string) {
    exists keys: seq<Key> :: (forall k :: k in keys <==> k in entries) && InOrder(keys) && Text(keys, entries) == text
  }

  lemma CleanIsRestored(entries: Entries, text: string)
    requires Writes(entries, text)
    requires forall k :: k in entries ==> InRange(k, entries[k]) && CleanTopic(k.0)
    ensures Parse(text) == Success(entries)
  {
    var keys: seq<Key> :| (forall k :: k in keys <==> k in entries) && InOrder(keys) && Text(keys, entries) == text;
    ParseText(keys, entries, map[]);
    assert map[] + Only(keys, entries) == entries;
  }

  /** Reading back what was written restores the entries exactly when no topic has a tab or a newline. */
  lemma ParseRestoresIffClean(entries: Entries, text: string)
    requires Writes(entries, text) && forall k :: k in entries ==> InRange(k, entries[k])
    ensures Parse(text) == Success(entries) <==> forall k :: k in entries ==> CleanTopic(k.0)
  {
    if forall k :: k in entries ==> CleanTopic(k.0) {
      CleanIsRestored(entries, text);
    }
    if Parse(text) == Success(entries) {
      ParsedTopicsAreClean(Lines(text), map[]);
    }
  }
}
