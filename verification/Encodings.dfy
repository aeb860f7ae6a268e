/**
 String encodings that must be undone or must not collide: the Bronze object key, the
 length-prefixed row fingerprint, and the delimiter-joined hash pre-image.
 */
module Encodings {
  import opened Wrappers

  datatype Coordinate = Coordinate(topic: string, partition: nat, offset: nat)

  // ---------------------------------------------------------------- decimal numerals

  predicate IsDigit(c: char) { '0' <= c <= '9' }

  predicate AllDigits(s: string) { forall i | 0 <= i < |s| :: IsDigit(s[i]) }

  function DigitOf(d: nat): char
    requires d < 10
  {
    ['0', '1', '2', '3', '4', '5', '6', '7', '8', '9'][d]
  }

  function ValueOf(c: char): nat
    requires IsDigit(c)
  {
    c as int - '0' as int
  }

  function DigitsValue(s: string): nat
    requires AllDigits(s)
  {
    if s == "" then 0 else 10 * DigitsValue(s[..|s| - 1]) + ValueOf(s[|s| - 1])
  }

  function Decimal(n: nat): (s: string)
    ensures s != "" && AllDigits(s) && DigitsValue(s) == n
  {
    if n < 10 then
      assert [DigitOf(n)][..0] == "";
      [DigitOf(n)]
    else
      var s := Decimal(n / 10) + [DigitOf(n % 10)];
      assert s[..|s| - 1] == Decimal(n / 10);
      s
  }

  function ParseNat(s: string): Option<nat> {
    if s != "" && AllDigits(s) then Some(DigitsValue(s)) else None
  }

  function Zeros(n: nat): (s: string)
    ensures |s| == n && AllDigits(s)
  {
    if n == 0 then "" else Zeros(n - 1) + "0"
  }

  /** `offset:020d`: at least twenty digits, padded on the left. */
  function PaddedOffset(n: nat): (s: string)
    ensures s != "" && AllDigits(s)
  {
    var digits := Decimal(n);
    if |digits| < 20 then Zeros(20 - |digits|) + digits else digits
  }

  lemma {:induction false} LeadingZerosAreIgnored(n: nat, s: string)
    requires AllDigits(s)
    ensures AllDigits(Zeros(n) + s) && DigitsValue(Zeros(n) + s) == DigitsValue(s)
    decreases |s|, n
  {
    if s == "" {
      if n > 0 {
        LeadingZerosAreIgnored(n - 1, "");
        assert Zeros(n - 1) + "" == Zeros(n - 1);
        assert (Zeros(n) + "")[..|Zeros(n)| - 1] == Zeros(n - 1);
      }
    } else {
      var t := Zeros(n) + s;
      LeadingZerosAreIgnored(n, s[..|s| - 1]);
      assert t[..|t| - 1] == Zeros(n) + s[..|s| - 1];
      assert t[|t| - 1] == s[|s| - 1];
    }
  }

  lemma PaddedOffsetParses(n: nat)
    ensures ParseNat(PaddedOffset(n)) == Some(n)
  {
    var digits := Decimal(n);
    if |digits| < 20 { LeadingZerosAreIgnored(20 - |digits|, digits); }
  }

  /** The first occurrence of a character splits a string in one way. */
  lemma FirstOccurrenceSplits(c: char, a: string, x: string, b: string, y: string)
    requires c !in a && c !in b && a + [c] + x == b + [c] + y
    ensures a == b && x == y
  {
    var s, t := a + [c] + x, b + [c] + y;
    assert s[|a|] == c && t[|b|] == c;
    assert forall i | 0 <= i < |a| :: t[i] == a[i];
    assert forall i | 0 <= i < |b| :: s[i] == b[i];
    assert |a| == |b|;
    assert s[..|a|] == a && t[..|b|] == b && s[|a| + 1..] == x && t[|b| + 1..] == y;
  }

  // ---------------------------------------------------------------- Bronze object keys

  /** Position of the last slash, or -1. */
  function LastSlash(s: string): (i: int)
    ensures -1 <= i < |s|
  {
    if s == "" then -1
    else if s[|s| - 1] == '/' then |s| - 1
    else LastSlash(s[..|s| - 1])
  }

  lemma {:induction false} LastSlashIsLast(s: string)
    ensures LastSlash(s) >= 0 ==> s[LastSlash(s)] == '/'
    ensures forall j | LastSlash(s) < j < |s| :: s[j] != '/'
  {
    if s != "" && s[|s| - 1] != '/' {
      LastSlashIsLast(s[..|s| - 1]);
      forall j | LastSlash(s) < j < |s| ensures s[j] != '/' {
        if j < |s| - 1 { assert s[..|s| - 1][j] == s[j]; }
      }
    }
  }

  /** The text between a fixed prefix and a fixed suffix, when `s` has that shape. */
  function Between(s: string, prefix: string, suffix: string): Option<string> {
    if |prefix| + |suffix| <= |s| && prefix <= s && s[|s| - |suffix|..] == suffix
    then Some(s[|prefix|..|s| - |suffix|]) else None
  }

  /** The end anchor of the key pattern also matches in front of one final newline. */
  function WithoutFinalNewline(key: string): string {
    if key != "" && key[|key| - 1] == '\n' then key[..|key| - 1] else key
  }

  /** The last three segments of a slash-separated path; the first of them may open the path. */
  function LastThreeSegments(path: string): Option<(string, string, string)> {
    var k := LastSlash(path);
    if k < 0 then None else
    var j := LastSlash(path[..k]);
    if j < 0 then None else
    Some((path[LastSlash(path[..j]) + 1..j], path[j + 1..k], path[k + 1..]))
  }

  /** The last three path segments must read topic=T, partition=P and offset=O.json. */
  function ParseBronzeCoordinate(objectKey: string): Option<Coordinate> {
    var segments := LastThreeSegments(WithoutFinalNewline(objectKey));
    if segments.None? then None else
    ParseSegments(segments.value.0, segments.value.1, segments.value.2)
  }

  function ParseSegments(topicSegment: string, partitionSegment: string, offsetSegment: string): Option<Coordinate> {
    var topic := Between(topicSegment, "topic=", "");
    var partition := Between(partitionSegment, "partition=", "");
    var offset := Between(offsetSegment, "offset=", ".json");
    if topic.None? || partition.None? || offset.None? || topic.value == "" then None else
    var p := ParseNat(partition.value);
    var o := ParseNat(offset.value);
    if p.None? || o.None? then None else Some(Coordinate(topic.value, p.value, o.value))
  }

  /** The key the Bronze writer prints; `folder` holds source, schema, table and event date. */
  function ObjectKey(folder: string, topic: string, partition: nat, offset: nat): string {
    folder + "/" + ("topic=" + topic) + "/" + ("partition=" + Decimal(partition)) + "/"
      + ("offset=" + PaddedOffset(offset) + ".json")
  }

  lemma {:induction false} LastSlashSplits(head: string, tail: string)
    requires forall i | 0 <= i < |tail| :: tail[i] != '/'
    ensures LastSlash(head + "/" + tail) == |head|
  {
    var s := head + "/" + tail;
    LastSlashIsLast(s);
    assert s[|head|] == '/';
    assert forall j | |head| < j < |s| :: s[j] == tail[j - |head| - 1];
  }

  lemma SegmentsSplit(folder: string, t: string, p: string, o: string)
    requires '/' !in t && '/' !in p && '/' !in o
    ensures LastThreeSegments(folder + "/" + t + "/" + p + "/" + o) == Some((t, p, o))
  {
    var head2 := folder + "/" + t;
    var head3 := head2 + "/" + p;
    var key := head3 + "/" + o;
    LastSlashSplits(head3, o);
    assert key[..|head3|] == head3 && key[|head3| + 1..] == o;
    LastSlashSplits(head2, p);
    assert head3[..|head2|] == head2 && head3[|head2| + 1..] == p;
    LastSlashSplits(folder, t);
    assert head2[|folder| + 1..] == t;
    assert key[..|head2|] == head2 && key[|head2| + 1..|head3|] == p && key[|folder| + 1..|head2|] == t;
  }

  lemma BetweenUndoes(prefix: string, text: string, suffix: string)
    ensures Between(prefix + text + suffix, prefix, suffix) == Some(text)
  {
    var s := prefix + text + suffix;
    assert s[|s| - |suffix|..] == suffix && s[|prefix|..|s| - |suffix|] == text;
  }

  lemma SegmentsParse(topic: string, partition: nat, offset: nat)
    requires topic != ""
    ensures ParseSegments("topic=" + topic, "partition=" + Decimal(partition),
                          "offset=" + PaddedOffset(offset) + ".json")
         == Some(Coordinate(topic, partition, offset))
  {
    var t, p := "topic=" + topic, "partition=" + Decimal(partition);
    BetweenUndoes("topic=", topic, "");
    assert t + "" == t;
    BetweenUndoes("partition=", Decimal(partition), "");
    assert p + "" == p;
    BetweenUndoes("offset=", PaddedOffset(offset), ".json");
    PaddedOffsetParses(offset);
  }

  /** Every key the writer prints parses back to the coordinate it was printed from. */
  lemma KeyRoundTrip(folder: string, topic: string, partition: nat, offset: nat)
    requires topic != "" && '/' !in topic
    ensures ParseBronzeCoordinate(ObjectKey(folder, topic, partition, offset)) ==
              Some(Coordinate(topic, partition, offset))
  {
    var t, p, o := "topic=" + topic, "partition=" + Decimal(partition), "offset=" + PaddedOffset(offset) + ".json";
    assert '/' !in p && '/' !in o by {
      assert forall i | 0 <= i < |Decimal(partition)| :: IsDigit(Decimal(partition)[i]);
      assert forall i | 0 <= i < |PaddedOffset(offset)| :: IsDigit(PaddedOffset(offset)[i]);
    }
    var key := folder + "/" + t + "/" + p + "/" + o;
    assert key[|key| - 1] == 'n';
    SegmentsSplit(folder, t, p, o);
    SegmentsParse(topic, partition, offset);
  }

  /** Two coordinates never share an object key, whatever folders they are written to. */
  lemma KeysDetermineCoordinates(f: string, t: string, p: nat, o: nat, f': string, t': string, p': nat, o': nat)
    requires t != "" && t' != "" && '/' !in t && '/' !in t'
    requires ObjectKey(f, t, p, o) == ObjectKey(f', t', p', o')
    ensures t == t' && p == p' && o == o'
  {
    KeyRoundTrip(f, t, p, o);
    KeyRoundTrip(f', t', p', o');
  }

  /** The path opens with the segments, or has a slash in front of them. */
  ghost predicate EndsIn(path: string, t: string, p: string, o: string) {
    && '/' !in t && '/' !in p && '/' !in o
    && (path == t + "/" + p + "/" + o || exists folder: string :: path == folder + "/" + t + "/" + p + "/" + o)
  }

  lemma NoSlash(s: string)
    requires '/' !in s
    ensures LastSlash(s) == -1
  {
    LastSlashIsLast(s);
  }

  lemma SegmentsAreLast(path: string, t: string, p: string, o: string)
    ensures LastThreeSegments(path) == Some((t, p, o)) <==> EndsIn(path, t, p, o)
  {
    if EndsIn(path, t, p, o) {
      if folder :| path == folder + "/" + t + "/" + p + "/" + o {
        SegmentsSplit(folder, t, p, o);
      } else {
        OpeningSegments(t, p, o);
      }
    }
    if LastThreeSegments(path) == Some((t, p, o)) { LastSegmentsEnd(path, t, p, o); }
  }

  lemma OpeningSegments(t: string, p: string, o: string)
    requires '/' !in t && '/' !in p && '/' !in o
    ensures LastThreeSegments(t + "/" + p + "/" + o) == Some((t, p, o))
  {
    var head := t + "/" + p;
    var key := head + "/" + o;
    LastSlashSplits(head, o);
    LastSlashSplits(t, p);
    NoSlash(t);
    assert key[..|head|] == head && key[|head| + 1..] == o && head[..|t|] == t && head[|t| + 1..] == p;
    assert key[..|t|] == t && key[|t| + 1..|head|] == p && t[0..|t|] == t;
  }

  lemma SplitAtSlash(s: string)
    ensures var k := LastSlash(s);
            if k < 0 then '/' !in s else s == s[..k] + "/" + s[k + 1..] && '/' !in s[k + 1..]
  {
    LastSlashIsLast(s);
  }

  lemma LastSegmentsEnd(path: string, t: string, p: string, o: string)
    requires LastThreeSegments(path) == Some((t, p, o))
    ensures EndsIn(path, t, p, o)
  {
    var k := LastSlash(path);
    var j := LastSlash(path[..k]);
    var i := LastSlash(path[..j]);
    var head, front := path[..k], path[..j];
    SplitAtSlash(path);
    SplitAtSlash(head);
    SplitAtSlash(front);
    assert head[..j] == front && head[j + 1..] == p && front[i + 1..] == t;
    hide LastSlash, LastThreeSegments;
    if i < 0 {
      assert front == t;
    } else {
      assert path == front[..i] + "/" + t + "/" + p + "/" + o;
    }
  }

  lemma BetweenExactly(s: string, prefix: string, text: string, suffix: string)
    ensures Between(s, prefix, suffix) == Some(text) <==> s == prefix + text + suffix
  {
    if s == prefix + text + suffix { BetweenUndoes(prefix, text, suffix); }
  }

  /** The key ends in the coordinate, up to one final newline; partition and offset are decimal numerals. */
  ghost predicate Names(key: string, c: Coordinate, partition: string, offset: string) {
    && c.topic != "" && ParseNat(partition) == Some(c.partition) && ParseNat(offset) == Some(c.offset)
    && exists path | key == path || key == path + "\n" ::
         EndsIn(path, "topic=" + c.topic, "partition=" + partition, "offset=" + offset + ".json")
  }

  lemma SegmentsName(t: string, p: string, o: string, c: Coordinate)
    ensures ParseSegments(t, p, o) == Some(c) <==>
              c.topic != "" && t == "topic=" + c.topic
              && exists partition, offset :: ParseNat(partition) == Some(c.partition)
                   && ParseNat(offset) == Some(c.offset)
                   && p == "partition=" + partition && o == "offset=" + offset + ".json"
  {
    hide ParseNat, Between;
    BetweenExactly(t, "topic=", c.topic, "");
    assert "topic=" + c.topic + "" == "topic=" + c.topic;
    forall x ensures Between(p, "partition=", "") == Some(x) <==> p == "partition=" + x {
      BetweenExactly(p, "partition=", x, "");
      assert "partition=" + x + "" == "partition=" + x;
    }
    forall x ensures Between(o, "offset=", ".json") == Some(x) <==> o == "offset=" + x + ".json" {
      BetweenExactly(o, "offset=", x, ".json");
    }
  }

  lemma NewlineIsDropped(key: string, path: string)
    requires path != "" && path[|path| - 1] != '\n'
    ensures WithoutFinalNewline(key) == path <==> key == path || key == path + "\n"
  {
  }

  /** A key has a coordinate exactly when its last three segments name it. */
  lemma ParseIsExact(key: string, c: Coordinate)
    ensures ParseBronzeCoordinate(key) == Some(c) <==> exists partition, offset :: Names(key, c, partition, offset)
  {
    hide LastThreeSegments, ParseSegments, ParseNat, EndsIn;
    if ParseBronzeCoordinate(key) == Some(c) {
      var path := WithoutFinalNewline(key);
      var (t, p, o) := LastThreeSegments(path).value;
      SegmentsAreLast(path, t, p, o);
      SegmentsName(t, p, o, c);
      var partition, offset :| ParseNat(partition) == Some(c.partition) && ParseNat(offset) == Some(c.offset)
                               && p == "partition=" + partition && o == "offset=" + offset + ".json";
      assert Names(key, c, partition, offset);
    }
    if partition, offset :| Names(key, c, partition, offset) {
      var t, p, o := "topic=" + c.topic, "partition=" + partition, "offset=" + offset + ".json";
      var path :| (key == path || key == path + "\n") && EndsIn(path, t, p, o);
      EndsInJson(path, t, p, offset);
      NewlineIsDropped(key, path);
      SegmentsAreLast(path, t, p, o);
      SegmentsName(t, p, o, c);
    }
  }

  lemma EndsInJson(path: string, t: string, p: string, offset: string)
    requires EndsIn(path, t, p, "offset=" + offset + ".json")
    ensures path != "" && path[|path| - 1] == 'n'
  {
  }

  /** The offset is printed with at least twenty digits. */
  lemma {:induction false} PaddedToTwenty(n: nat)
    ensures var s, digits := PaddedOffset(n), Decimal(n);
            && |s| == (if |digits| < 20 then 20 else |digits|) && s[|s| - |digits|..] == digits
            && forall i | 0 <= i < |s| - |digits| :: s[i] == '0'
  {
    var digits := Decimal(n);
    if |digits| < 20 { ZerosOnly(20 - |digits|); }
  }

  lemma {:induction false} ZerosOnly(n: nat)
    ensures forall i | 0 <= i < n :: Zeros(n)[i] == '0'
  {
    if n > 0 { ZerosOnly(n - 1); }
  }

  // ---------------------------------------------------------------- length-prefixed rows

  /** One column of a fingerprinted row: its length, a colon, its text; `-1:` for null. */
  function CanonicalColumn(value: Option<string>): string {
    match value
    case None => "-1:"
    case Some(v) => Decimal(|v|) + ":" + v
  }

  function CanonicalRow(values: seq<Option<string>>): string {
    if values == [] then "" else CanonicalColumn(values[0]) + CanonicalRow(values[1..])
  }

  function LengthText(value: Option<string>): string {
    if value.None? then "-1" else Decimal(|value.value|)
  }

  function Text(value: Option<string>): string {
    if value.None? then "" else value.value
  }

  lemma LengthTextDetermines(a: Option<string>, b: Option<string>)
    requires LengthText(a) == LengthText(b)
    ensures (a.None? <==> b.None?) && |Text(a)| == |Text(b)|
  {
    assert !IsDigit("-1"[0]);
  }

  lemma TokensSplit(la: string, va: string, x: string, lb: string, vb: string, y: string)
    requires ':' !in la && ':' !in lb && la + ":" + va + x == lb + ":" + vb + y
    ensures la == lb && va + x == vb + y
  {
    assert la + [':'] + (va + x) == la + ":" + va + x;
    assert lb + [':'] + (vb + y) == lb + ":" + vb + y;
    FirstOccurrenceSplits(':', la, va + x, lb, vb + y);
  }

  lemma EqualLengthsSplit(a: string, x: string, b: string, y: string)
    requires |a| == |b| && a + x == b + y
    ensures a == b && x == y
  {
    assert (a + x)[..|a|] == a && (b + y)[..|b|] == b;
    assert (a + x)[|a|..] == x && (b + y)[|b|..] == y;
  }

  lemma ColumnsAreSelfDelimiting(a: Option<string>, x: string, b: Option<string>, y: string)
    requires CanonicalColumn(a) + x == CanonicalColumn(b) + y
    ensures a == b && x == y
  {
    assert CanonicalColumn(a) == LengthText(a) + ":" + Text(a);
    assert CanonicalColumn(b) == LengthText(b) + ":" + Text(b);
    TokensSplit(LengthText(a), Text(a), x, LengthText(b), Text(b), y);
    LengthTextDetermines(a, b);
    EqualLengthsSplit(Text(a), x, Text(b), y);
  }

  /** Rows with the same fingerprint input are the same row, nulls and empty strings included. */
  lemma {:induction false} RowEncodingIsInjective(a: seq<Option<string>>, b: seq<Option<string>>)
    requires CanonicalRow(a) == CanonicalRow(b)
    ensures a == b
  {
    if a == [] || b == [] {
    } else {
      ColumnsAreSelfDelimiting(a[0], CanonicalRow(a[1..]), b[0], CanonicalRow(b[1..]));
      RowEncodingIsInjective(a[1..], b[1..]);
      assert a == [a[0]] + a[1..] && b == [b[0]] + b[1..];
    }
  }

  // ---------------------------------------------------------------- hash pre-images

  /** `concat_ws` with the hash delimiter. */
  function JoinComponents(parts: seq<string>): string {
    if parts == [] then ""
    else if |parts| == 1 then parts[0]
    else parts[0] + "||" + JoinComponents(parts[1..])
  }

  ghost predicate Over(alphabet: iset<char>, parts: seq<string>) {
    forall i, j | 0 <= i < |parts| && 0 <= j < |parts[i]| :: parts[i][j] in alphabet
  }

  /** Joined components of one arity over the alphabet determine the components. */
  ghost predicate JoinIsInjective(alphabet: iset<char>, arity: nat) {
    forall a, b | |a| == |b| == arity && Over(alphabet, a) && Over(alphabet, b)
                  && JoinComponents(a) == JoinComponents(b) :: a == b
  }

  lemma {:induction false} PipeFreeComponentsSplit(alphabet: iset<char>, a: seq<string>, b: seq<string>)
    requires '|' !in alphabet && |a| == |b| && Over(alphabet, a) && Over(alphabet, b)
    requires JoinComponents(a) == JoinComponents(b)
    ensures a == b
  {
    if |a| > 1 {
      var x, y := "|" + JoinComponents(a[1..]), "|" + JoinComponents(b[1..]);
      assert JoinComponents(a) == a[0] + ['|'] + x && JoinComponents(b) == b[0] + ['|'] + y;
      FirstOccurrenceSplits('|', a[0], x, b[0], y);
      assert JoinComponents(a[1..]) == x[1..] && JoinComponents(b[1..]) == y[1..];
      assert Over(alphabet, a[1..]) && Over(alphabet, b[1..]);
      PipeFreeComponentsSplit(alphabet, a[1..], b[1..]);
      assert a == [a[0]] + a[1..] && b == [b[0]] + b[1..];
    } else if |a| == 1 {
      assert a == [a[0]] && b == [b[0]];
    }
  }

  /** Two different contexts with one hash pre-image, as soon as components may hold a pipe. */
  lemma PipesCollide(arity: nat) returns (a: seq<string>, b: seq<string>)
    requires arity >= 2
    ensures |a| == |b| == arity && a != b && JoinComponents(a) == JoinComponents(b)
    ensures Over(iset{'|'}, a) && Over(iset{'|'}, b)
  {
    var rest := seq(arity - 2, i => "|");
    a, b := ["|", "||"] + rest, ["||", "|"] + rest;
    assert a[1..] == ["||"] + rest && b[1..] == ["|"] + rest;
    if rest == [] {
      assert JoinComponents(a) == "|" + "||" + "||" && JoinComponents(b) == "||" + "||" + "|";
    } else {
      assert a[1..][1..] == rest && b[1..][1..] == rest;
      var tail := JoinComponents(rest);
      assert JoinComponents(a) == "|" + "||" + ("||" + "||" + tail);
      assert JoinComponents(b) == "||" + "||" + ("|" + "||" + tail);
    }
  }

  /**
   Hash keys over two or more components identify their components exactly when no component can
   contain the delimiter's character.
   */
  lemma JoinInjectiveExactlyWithoutPipes(alphabet: iset<char>, arity: nat)
    requires arity >= 2
    ensures JoinIsInjective(alphabet, arity) <==> '|' !in alphabet
  {
    if '|' in alphabet {
      var a, b := PipesCollide(arity);
      assert Over(alphabet, a) && Over(alphabet, b);
    } else {
      forall a, b | |a| == |b| == arity && Over(alphabet, a) && Over(alphabet, b)
                    && JoinComponents(a) == JoinComponents(b) ensures a == b {
        PipeFreeComponentsSplit(alphabet, a, b);
      }
    }
  }

  // ---------------------------------------------------------------- canonical values

  function TrimLeft(s: string): string {
    if s != "" && s[0] == ' ' then TrimLeft(s[1..]) else s
  }

  function TrimRight(s: string): string {
    if s != "" && s[|s| - 1] == ' ' then TrimRight(s[..|s| - 1]) else s
  }

  function Trim(s: string): string {
    TrimRight(TrimLeft(s))
  }

  function UpperChar(c: char): char {
    if 'a' <= c <= 'z' then (c as int - 'a' as int + 'A' as int) as char else c
  }

  /** Upper case of ASCII letters. */
  function Upper(s: string): string {
    seq(|s|, i requires 0 <= i < |s| => UpperChar(s[i]))
  }

  const NULL_TOKEN := "^^"

  /** Null, empty and blank values are one value. */
  predicate Blank(value: Option<string>) {
    value.None? || Trim(value.value) == ""
  }

  /** canonical_value. */
  function Canonical(value: Option<string>): string {
    if Blank(value) then NULL_TOKEN else Upper(Trim(value.value))
  }

  /** The pre-image of hash_key. */
  function HashKey(namespace: string, columns: seq<Option<string>>): string {
    JoinComponents([namespace] + seq(|columns|, i requires 0 <= i < |columns| => Canonical(columns[i])))
  }

  /** Equal up to surrounding blanks and case. */
  predicate SameKey(a: Option<string>, b: Option<string>) {
    Blank(a) == Blank(b) && (!Blank(a) ==> Upper(Trim(a.value)) == Upper(Trim(b.value)))
  }

  predicate SpellsNull(value: Option<string>) {
    !Blank(value) && Trim(value.value) == NULL_TOKEN
  }

  predicate IsNotPipe(c: char) {
    c != '|'
  }

  predicate PipeFree(s: string) {
    '|' !in s
  }

  predicate PipeFreeColumns(columns: seq<Option<string>>) {
    forall i | 0 <= i < |columns| :: columns[i].Some? ==> PipeFree(columns[i].value)
  }

  lemma {:induction false} TrimLeftIsSuffix(s: string)
    ensures exists k: nat :: k <= |s| && TrimLeft(s) == s[k..]
  {
    if s != "" && s[0] == ' ' {
      TrimLeftIsSuffix(s[1..]);
      var k: nat :| k <= |s| - 1 && TrimLeft(s[1..]) == s[1..][k..];
      assert s[1..][k..] == s[k + 1..];
    } else {
      assert s[0..] == s;
    }
  }

  lemma {:induction false} TrimRightIsPrefix(s: string)
    ensures TrimRight(s) <= s
  {
    if s != "" && s[|s| - 1] == ' ' { TrimRightIsPrefix(s[..|s| - 1]); }
  }

  lemma CanonicalIsPipeFree(value: Option<string>)
    requires value.Some? ==> PipeFree(value.value)
    ensures PipeFree(Canonical(value))
  {
    if !Blank(value) {
      var left := TrimLeft(value.value);
      TrimLeftIsSuffix(value.value);
      TrimRightIsPrefix(left);
      forall c | c in Trim(value.value) ensures c != '|' {
        assert c in left;
      }
      forall i | 0 <= i < |Canonical(value)| ensures Canonical(value)[i] != '|' {
        assert Trim(value.value)[i] in Trim(value.value);
      }
    }
  }

  lemma CanonicalAgreesExactly(a: Option<string>, b: Option<string>)
    ensures Canonical(a) == Canonical(b) <==>
              SameKey(a, b) || (Blank(a) && SpellsNull(b)) || (Blank(b) && SpellsNull(a))
  {
    if !Blank(a) { UpperIsTokenExactly(Trim(a.value)); }
    if !Blank(b) { UpperIsTokenExactly(Trim(b.value)); }
    hide Trim, Upper;
  }

  lemma UpperIsTokenExactly(s: string)
    ensures Upper(s) == NULL_TOKEN <==> s == NULL_TOKEN
  {
    if Upper(s) == NULL_TOKEN {
      assert |s| == 2 && UpperChar(s[0]) == Upper(s)[0] && UpperChar(s[1]) == Upper(s)[1];
    }
    if s == NULL_TOKEN { assert Upper(s) == [UpperChar(s[0]), UpperChar(s[1])]; }
  }

  /**
   Over columns without a pipe, two keys of one namespace have one hash pre-image, if and only if they
   agree column by column up to blanks and case, a blank also agreeing with the text of the null token.
   */
  lemma HashKeysAgreeExactly(namespace: string, a: seq<Option<string>>, b: seq<Option<string>>)
    requires |a| == |b| && PipeFree(namespace) && PipeFreeColumns(a) && PipeFreeColumns(b)
    ensures HashKey(namespace, a) == HashKey(namespace, b) <==>
              forall i | 0 <= i < |a| ::
                SameKey(a[i], b[i]) || (Blank(a[i]) && SpellsNull(b[i])) || (Blank(b[i]) && SpellsNull(a[i]))
  {
    var x := [namespace] + seq(|a|, i requires 0 <= i < |a| => Canonical(a[i]));
    var y := [namespace] + seq(|b|, i requires 0 <= i < |b| => Canonical(b[i]));
    hide Canonical, SameKey, SpellsNull, Blank;
    var alphabet := iset c: char | IsNotPipe(c);
    forall i | 0 <= i < |a| ensures x[i + 1] == Canonical(a[i]) && y[i + 1] == Canonical(b[i])
      ensures PipeFree(x[i + 1]) && PipeFree(y[i + 1])
      ensures Canonical(a[i]) == Canonical(b[i]) <==>
                SameKey(a[i], b[i]) || (Blank(a[i]) && SpellsNull(b[i])) || (Blank(b[i]) && SpellsNull(a[i]))
    {
      CanonicalIsPipeFree(a[i]);
      CanonicalIsPipeFree(b[i]);
      CanonicalAgreesExactly(a[i], b[i]);
    }
    if JoinComponents(x) == JoinComponents(y) {
      assert Over(alphabet, x) && Over(alphabet, y) by {
        forall i, j | 0 <= i < |x| && 0 <= j < |x[i]| ensures x[i][j] in alphabet {
          if i > 0 { assert PipeFree(x[i - 1 + 1]); }
        }
        forall i, j | 0 <= i < |y| && 0 <= j < |y[i]| ensures y[i][j] in alphabet {
          if i > 0 { assert PipeFree(y[i - 1 + 1]); }
        }
      }
      PipeFreeComponentsSplit(alphabet, x, y);
      forall i | 0 <= i < |a| ensures Canonical(a[i]) == Canonical(b[i]) {
        assert x[i + 1] == y[i + 1];
      }
    }
    if forall i | 0 <= i < |a| :: Canonical(a[i]) == Canonical(b[i]) {
      forall k | 0 <= k < |x| ensures x[k] == y[k] {
        if k > 0 { assert x[k - 1 + 1] == Canonical(a[k - 1]) && y[k - 1 + 1] == Canonical(b[k - 1]); }
      }
      assert x == y;
    }
  }
}
