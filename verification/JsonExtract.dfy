/** The ad hoc JSON string extractor of the Zephyr ThingsBoard client, against a printer of flat objects. */
module JsonExtract {
  import opened Text

  const QUOTE := '"'
  const KEY_MAX: nat := 35

  /** snprintf of "\"%s\":\"" into 40 bytes: whole for keys of at most 35 bytes. */
  function Pattern(key: string): (p: string)
    ensures |p| == |key| + 4
  {
    [QUOTE] + key + [QUOTE, ':', QUOTE]
  }

  /** The text from start up to the next quote or the end. */
  function ValueFrom(json: string, start: nat): Option<string> {
    if start <= |json| then Some(json[start..][..IndexOf(json[start..], QUOTE)]) else None
  }

  /** The value behind a match. */
  function ValueAt(json: string, pattern: string, at: Option<nat>): Option<string> {
    match at
    case Some(i) => ValueFrom(json, i + |pattern|)
    case None => None
  }

  /** The value behind the first match. */
  function Extracted(json: string, pattern: string): Option<string> {
    ValueAt(json, pattern, Find(json, 0, pattern))
  }

  /**
   In any text: the value behind the first occurrence of "key":" that does not end the text, up to the next quote
   or the end.
   */
  lemma ExtractedExactly(json: string, key: string, pattern: string, v: string)
    requires pattern == ['"'] + key + ['"', ':', '"']
    ensures Extracted(json, Pattern(key)) == Some(v) <==>
              exists i: nat :: i + |pattern| < |json| && Occurs(json, i, pattern)
                && (forall j :: 0 <= j < i ==> !Occurs(json, j, pattern))
                && v <= json[i + |pattern|..] && '"' !in v
                && (i + |pattern| + |v| == |json| || json[i + |pattern| + |v|] == '"')
  {
    forall i: nat
      ensures Find(json, 0, pattern) == Some(i) <==>
                && i + |pattern| < |json| && Occurs(json, i, pattern)
                && forall j :: 0 <= j < i ==> !Occurs(json, j, pattern)
    {
      FindExactly(json, 0, pattern, i);
    }
    match Find(json, 0, pattern)
    case Some(i) => ValueExactly(json, i + |pattern|, v);
    case None =>
  }

  lemma ValueExactly(json: string, start: nat, v: string)
    requires start <= |json|
    ensures ValueFrom(json, start) == Some(v) <==>
              v <= json[start..] && '"' !in v && (start + |v| == |json| || json[start + |v|] == '"')
  {
    var rest := json[start..];
    if v <= rest && '"' !in v {
      assert rest[..|v|] == v;
      if start + |v| == |json| {
        IndexAfter(v, [], '"');
        assert v + [] == v;
      } else if json[start + |v|] == '"' {
        IndexUnique(rest, |v|, '"');
      }
    }
  }

  /** The inner scan: the next quote at or after start, or the end. */
  method ScanToQuote(json: array<char>, start: nat) returns (end: nat)
    requires start <= json.Length
    ensures end == start + IndexOf(json[..][start..], QUOTE)
  {
    end := start;
    while end < json.Length && json[end] != QUOTE
      invariant start <= end <= json.Length
      invariant IndexOf(json[start..], QUOTE) == end - start + IndexOf(json[end..], QUOTE)
    {
      assert json[end..][1..] == json[end + 1..];
      end := end + 1;
    }
    assert json[..][start..] == json[start..];
  }

  lemma SliceTwice(s: string, i: nat, j: nat)
    requires i + j <= |s|
    ensures s[i..][..j] == s[i..i + j]
  {
  }

  lemma TruncatedSlice(s: string, i: nat, len: nat, n: nat)
    requires i + len <= |s|
    ensures Truncated(s[i..i + len], n) == s[i..i + Min(len, n)]
  {
  }

  /** What a match at i extracts, cut to n characters, as a slice of the text. */
  lemma ValueSlice(text: string, pattern: string, i: nat, n: nat, start: nat) returns (v: string)
    requires i + |pattern| < |text| && start == i + |pattern|
    ensures v == Truncated(ValueAt(text, pattern, Some(i)).GetOr(""), n)
    ensures var len := Min(IndexOf(text[start..], QUOTE), n); |v| == len && v == text[start..start + len]
  {
    var len := IndexOf(text[start..], QUOTE);
    SliceTwice(text, start, len);
    TruncatedSlice(text, start, len, n);
    v := text[start..start + Min(len, n)];
  }

  /** The outer scan, strict at the end of the text as in the source. */
  method ScanForPattern(json: array<char>, pattern: string) returns (at: Option<nat>)
    ensures at == Find(json[..], 0, pattern)
    ensures at.Some? ==> at.value + |pattern| < json.Length
  {
    ghost var text := json[..];
    var i := 0;
    while i + |pattern| < json.Length
      invariant Find(text, 0, pattern) == Find(text, i, pattern)
      decreases json.Length - i
    {
      assert json[i..i + |pattern|] == text[i..i + |pattern|];
      if json[i..i + |pattern|] == pattern {
        return Some(i);
      }
      i := i + 1;
    }
    return None;
  }

  /** The text from start to the next quote, cut to the output buffer. */
  method CopyToQuote(json: array<char>, start: nat, out: array<char>)
    requires start <= json.Length && out.Length >= 1 && json != out
    modifies out
    ensures var text := old(json[..]);
            var len := Min(IndexOf(text[start..], QUOTE), out.Length - 1);
            start + len <= |text| && out[..] == text[start..start + len] + ['\0'] + old(out[..])[len + 1..]
  {
    ghost var text := json[..];
    var end := ScanToQuote(json, start);
    var len := end - start;
    if len >= out.Length {
      len := out.Length - 1;
    }
    assert json[start..start + len] == text[start..start + len];
    CopyText(json, start, len, out);
  }

  /** The value behind a match at i, cut to the output buffer. */
  method CopyValue(json: array<char>, pattern: string, i: nat, out: array<char>)
    requires i + |pattern| < json.Length && out.Length >= 1 && json != out
    modifies out
    ensures var v := Truncated(ValueAt(old(json[..]), pattern, Some(i)).GetOr(""), out.Length - 1);
            out[..] == v + ['\0'] + old(out[..])[|v| + 1..]
  {
    var start := i + |pattern|;
    ghost var v := ValueSlice(json[..], pattern, i, out.Length - 1, start);
    CopyToQuote(json, start, out);
    assert out[..] == v + ['\0'] + old(out[..])[|v| + 1..];
  }

  /** json_extract_string: every access is an array access within bounds. */
  method JsonExtractString(json: array<char>, key: string, out: array<char>) returns (found: bool)
    requires |key| <= KEY_MAX && out.Length >= 1 && json != out
    modifies out
    ensures found <==> Extracted(json[..], Pattern(key)).Some?
    ensures !found ==> out[..] == old(out[..])
    ensures found ==>
              var v := Truncated(Extracted(json[..], Pattern(key)).GetOr(""), out.Length - 1);
              out[..] == v + ['\0'] + old(out[..])[|v| + 1..]
  {
    var pattern := Pattern(key);
    var at := ScanForPattern(json, pattern);
    found := at.Some?;
    if found {
      CopyValue(json, pattern, at.value, out);
    }
  }

  /** memcpy of len characters and a terminator. */
  method CopyText(json: array<char>, start: nat, len: nat, out: array<char>)
    requires start + len <= json.Length && len < out.Length && json != out
    modifies out
    ensures out[..] == json[start..start + len] + ['\0'] + old(out[..])[len + 1..]
  {
    forall k | 0 <= k < len {
      out[k] := json[start + k];
    }
    out[len] := '\0';
  }

  // ---- Flat objects -----------------------------------------------------

  datatype Entry = Entry(key: string, value: string)

  predicate Alphanumeric(c: char) {
    'a' <= c <= 'z' || 'A' <= c <= 'Z' || '0' <= c <= '9'
  }

  predicate KeyText(k: string) {
    k != [] && forall i :: 0 <= i < |k| ==> Alphanumeric(k[i])
  }

  predicate Plain(e: Entry) {
    KeyText(e.key) && QUOTE !in e.value
  }

  function PrintEntry(e: Entry): string {
    ['"'] + e.key + ['"', ':', '"'] + e.value + ['"']
  }

  /** Every entry behind its separator, then the closing brace. */
  function PrintFrom(entries: seq<Entry>, separator: char): (s: string)
    ensures s != []
    ensures s[0] == if entries == [] then '}' else separator
  {
    if entries == [] then "}" else [separator] + PrintEntry(entries[0]) + PrintFrom(entries[1..], ',')
  }

  function Print(entries: seq<Entry>): string {
    if entries == [] then "{}" else PrintFrom(entries, '{')
  }

  function Lookup(entries: seq<Entry>, key: string): Option<string> {
    if entries == [] then None
    else if entries[0].key == key then Some(entries[0].value)
    else Lookup(entries[1..], key)
  }

  lemma {:induction false} SkipTo(s: string, i: nat, j: nat, pattern: string)
    requires i <= j && (forall m :: i <= m < j ==> !Occurs(s, m, pattern))
    ensures Find(s, i, pattern) == Find(s, j, pattern)
    decreases j - i
  {
    if i < j {
      SkipTo(s, i + 1, j, pattern);
      assert !Occurs(s, i, pattern);
    }
  }

  /** Searching a suffix is searching the whole from where the suffix begins. */
  lemma {:induction false} FindShifts(s: string, n: nat, i: nat, pattern: string)
    requires n <= |s|
    ensures Find(s, n + i, pattern) == Shifted(Find(s[n..], i, pattern), n)
    decreases |s| - i
  {
    if n + i + |pattern| < |s| {
      assert s[n + i..n + i + |pattern|] == s[n..][i..i + |pattern|];
      FindShifts(s, n, i + 1, pattern);
    }
  }

  function Shifted(at: Option<nat>, n: nat): Option<nat> {
    match at
    case Some(k) => Some(n + k)
    case None => None
  }

  /** A match has something behind it. */
  lemma {:induction false} FindBounds(s: string, i: nat, pattern: string)
    ensures Find(s, i, pattern).Some? ==> Find(s, i, pattern).value + |pattern| < |s|
    decreases |s| - i
  {
    if i + |pattern| < |s| {
      FindBounds(s, i + 1, pattern);
    }
  }

  lemma ValueShifts(s: string, n: nat, k: nat)
    requires n <= |s| && k <= |s| - n
    ensures ValueFrom(s, n + k) == ValueFrom(s[n..], k)
  {
    DropDrop(s, n, k);
  }

  lemma ValueAtShifts(s: string, n: nat, pattern: string, at: Option<nat>)
    requires n <= |s| && (at.Some? ==> at.value + |pattern| < |s| - n)
    ensures ValueAt(s, pattern, Shifted(at, n)) == ValueAt(s[n..], pattern, at)
  {
    if at.Some? {
      ValueShifts(s, n, at.value + |pattern|);
    }
  }

  /** Text without a match in front changes nothing. */
  lemma ExtractSkips(s: string, n: nat, pattern: string)
    requires n <= |s| && Find(s, 0, pattern) == Find(s, n, pattern)
    ensures Extracted(s, pattern) == Extracted(s[n..], pattern)
  {
    FindShifts(s, n, 0, pattern);
    FindBounds(s[n..], 0, pattern);
    ValueAtShifts(s, n, pattern, Find(s[n..], 0, pattern));
  }

  /** Two quote-free texts, each followed by a quote, agree when the whole agrees. */
  lemma Aligned(a: string, x: string, b: string, y: string)
    requires QUOTE !in a && QUOTE !in b && a + ([QUOTE] + x) == b + ([QUOTE] + y)
    ensures a == b && x == y
  {
    IndexAfter(a, [QUOTE] + x, QUOTE);
    IndexAfter(b, [QUOTE] + y, QUOTE);
    assert a == (a + ([QUOTE] + x))[..|a|] && b == (b + ([QUOTE] + y))[..|a|];
    assert x == (a + ([QUOTE] + x))[|a| + 1..] && y == (b + ([QUOTE] + y))[|a| + 1..];
  }

  /** A match at a quote: the key and the rest of the pattern follow it. */
  lemma MatchGives(t: string, m: nat, key: string)
    requires Occurs(t, m, Pattern(key))
    ensures exists y :: t[m + 1..] == key + ([QUOTE] + y) && y != [] && y[0] == ':'
    ensures t[m] == QUOTE && (key != [] ==> m + 1 < |t| && t[m + 1] == key[0])
  {
    var p := Pattern(key);
    var y := [':', QUOTE] + t[m + |p|..];
    assert t[m..] == t[m..m + |p|] + t[m + |p|..];
    assert t[m + 1..] == t[m..][1..] == key + ([QUOTE] + y);
    assert t[m] == t[m..][0];
    assert key != [] ==> t[m + 1] == t[m..][1];
  }

  /** A printed entry between its separator and what follows. */
  function Framed(c: char, e: Entry, more: string): string {
    [c] + PrintEntry(e) + more
  }

  /** Its four quotes are the only ones. */
  lemma QuotesOf(c: char, e: Entry, more: string, m: nat)
    requires c != QUOTE && Plain(e) && m < 1 + |PrintEntry(e)| && Framed(c, e, more)[m] == QUOTE
    ensures var q := 2 + |e.key|; m == 1 || m == q || m == q + 2 || m == q + 3 + |e.value|
  {
    var t, q := Framed(c, e, more), 2 + |e.key|;
    assert forall j :: 0 <= j < |e.key| ==> t[2 + j] == e.key[j];
    assert forall j :: 0 <= j < |e.value| ==> t[q + 3 + j] == e.value[j];
  }

  lemma MatchAtKey(c: char, e: Entry, more: string, key: string)
    requires Plain(e) && KeyText(key) && Occurs(Framed(c, e, more), 1, Pattern(key))
    ensures e.key == key
  {
    var t := Framed(c, e, more);
    MatchGives(t, 1, key);
    var y :| t[2..] == key + ([QUOTE] + y) && y != [] && y[0] == ':';
    var x := [':', QUOTE] + e.value + [QUOTE] + more;
    assert t[2..] == e.key + ([QUOTE] + x);
    Aligned(e.key, x, key, y);
  }

  lemma MatchAtValue(c: char, e: Entry, more: string, key: string)
    requires Plain(e) && KeyText(key) && Occurs(Framed(c, e, more), 4 + |e.key|, Pattern(key))
    ensures more != [] && more[0] == ':'
  {
    var t, q := Framed(c, e, more), 4 + |e.key|;
    MatchGives(t, q, key);
    var y :| t[q + 1..] == key + ([QUOTE] + y) && y != [] && y[0] == ':';
    assert t[q + 1..] == e.value + ([QUOTE] + more);
    Aligned(e.value, more, key, y);
  }

  lemma NoMatchInEntry(c: char, e: Entry, more: string, key: string, m: nat)
    requires c != QUOTE && Plain(e) && KeyText(key) && e.key != key
    requires more != [] && (more[0] == ',' || more[0] == '}')
    requires m < 1 + |PrintEntry(e)|
    ensures !Occurs(Framed(c, e, more), m, Pattern(key))
  {
    var t, q := Framed(c, e, more), 2 + |e.key|;
    if Occurs(t, m, Pattern(key)) {
      MatchGives(t, m, key);
      QuotesOf(c, e, more, m);
      assert t[q + 1] == ':' && t[q + 4 + |e.value|] == more[0];
      if m == 1 {
        MatchAtKey(c, e, more, key);
      } else if m == q + 2 {
        MatchAtValue(c, e, more, key);
      }
    }
  }

  lemma ExtractsHere(c: char, e: Entry, more: string)
    requires c != QUOTE && Plain(e) && more != []
    ensures Extracted(Framed(c, e, more), Pattern(e.key)) == Some(e.value)
  {
    var t, p := Framed(c, e, more), Pattern(e.key);
    FindSkips(t, 0, p);
    assert t[1..1 + |p|] == p;
    assert t[1 + |p|..] == e.value + ([QUOTE] + more);
    IndexAfter(e.value, [QUOTE] + more, QUOTE);
  }

  lemma {:induction false} ExtractFrom(entries: seq<Entry>, separator: char, key: string)
    requires separator != QUOTE && KeyText(key) && forall e :: e in entries ==> Plain(e)
    ensures Extracted(PrintFrom(entries, separator), Pattern(key)) == Lookup(entries, key)
    decreases entries
  {
    if entries != [] {
      var e, more := entries[0], PrintFrom(entries[1..], ',');
      if e.key == key {
        ExtractsHere(separator, e, more);
      } else {
        var front := [separator] + PrintEntry(e);
        assert front + more == Framed(separator, e, more);
        forall m | 0 <= m < |front|
          ensures !Occurs(front + more, m, Pattern(key))
        {
          NoMatchInEntry(separator, e, more, key, m);
        }
        SkipTo(front + more, 0, |front|, Pattern(key));
        DropAppend(front, more, 0);
        ExtractSkips(front + more, |front|, Pattern(key));
        ExtractFrom(entries[1..], ',', key);
      }
    }
  }

  /** Extraction undoes printing: it finds a key exactly when it occurs, and yields its first value. */
  lemma ExtractUndoesPrint(entries: seq<Entry>, key: string)
    requires KeyText(key) && forall e :: e in entries ==> Plain(e)
    ensures Extracted(Print(entries), Pattern(key)) == Lookup(entries, key)
  {
    if entries != [] {
      ExtractFrom(entries, '{', key);
    }
  }

  // ---- provisioning_evt_handler -----------------------------------------

  /** What run_provisioning returns for what was read under "status" and "credentialsValue". */
  function TokenOf(status: Option<string>, credentials: Option<string>): Option<string> {
    if status.None? || CString(Truncated(status.value, 31)) != "SUCCESS" || credentials.None? then None
    else
      var token := CString(Truncated(credentials.value, 63));
      if token == "" then None else Some(token)
  }

  function ProvisionedToken(json: string): Option<string> {
    TokenOf(Extracted(json, Pattern("status")), Extracted(json, Pattern("credentialsValue")))
  }

  /** The text is there and reads as something. */
  predicate Reads(text: Option<string>) {
    text.Some? && CString(text.value) != ""
  }

  predicate Succeeds(status: Option<string>) {
    status.Some? && CString(status.value) == "SUCCESS"
  }

  /** Cutting the status to its buffer cannot make it SUCCESS, nor keep it from being so. */
  lemma TokenExactly(status: Option<string>, credentials: Option<string>)
    ensures TokenOf(status, credentials) ==
              if Succeeds(status) && Reads(credentials) then Some(Truncated(CString(credentials.value), 63)) else None
  {
    if status.Some? {
      CStringCut(status.value, 31);
      ShortEnough(CString(status.value), "SUCCESS", 31);
    }
    if credentials.Some? {
      CStringCut(credentials.value, 63);
      ShortEnough(CString(credentials.value), "", 63);
    }
  }

  lemma ShortEnough(s: string, literal: string, n: nat)
    requires |literal| < n
    ensures Truncated(s, n) == literal <==> s == literal
  {
  }

  /**
   The token provisioning returns for a printed reply: none unless its status, read up to a zero byte, is
   SUCCESS and it carries credentials that read as something; else those, cut to 63 bytes.
   */
  lemma ProvisioningReadsReply(entries: seq<Entry>)
    requires forall e :: e in entries ==> Plain(e)
    ensures var status, credentials := Lookup(entries, "status"), Lookup(entries, "credentialsValue");
            ProvisionedToken(Print(entries)) ==
              if Succeeds(status) && Reads(credentials) then Some(Truncated(CString(credentials.value), 63)) else None
  {
    var json, status, credentials := Print(entries), Lookup(entries, "status"), Lookup(entries, "credentialsValue");
    ReadsKey(entries, "status", json, status);
    ReadsKey(entries, "credentialsValue", json, credentials);
    TokenExactly(status, credentials);
  }

  lemma ReadsKey(entries: seq<Entry>, key: string, json: string, value: Option<string>)
    requires KeyText(key) && forall e :: e in entries ==> Plain(e)
    requires json == Print(entries) && value == Lookup(entries, key)
    ensures Extracted(json, Pattern(key)) == value
  {
    ExtractUndoesPrint(entries, key);
  }
}
