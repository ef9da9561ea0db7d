/** apps/api/src/routes/hlsAuth.ts: which camera a stream URI names; and the printer of
    stream names in apps/api/src/services/stream.ts and apps/api/src/jobs/healthWorker.ts. */
module StreamPath {
  import opened Common

  datatype Stream = Stream(nvrId: string, channel: int)

  // ── Characters ────────────────────────────────────────────────────────────

  predicate IsDigit(c: char) {
    '0' <= c <= '9'
  }

  predicate IsWord(c: char) {
    IsDigit(c) || 'A' <= c <= 'Z' || 'a' <= c <= 'z' || c == '_'
  }

  /** What `trim` takes away. */
  predicate IsSpace(c: char) {
    || '\t' <= c <= '\r' || c == ' ' || c == '\U{A0}' || c == '\U{1680}' || '\U{2000}' <= c <= '\U{200A}'
    || c == '\U{2028}' || c == '\U{2029}' || c == '\U{202F}' || c == '\U{205F}' || c == '\U{3000}' || c == '\U{FEFF}'
  }

  predicate AllDigits(s: string) {
    forall i :: 0 <= i < |s| ==> IsDigit(s[i])
  }

  predicate AllWord(s: string) {
    forall i :: 0 <= i < |s| ==> IsWord(s[i])
  }

  /** Where `c` first stands; the length if nowhere. */
  function IndexOf(s: string, c: char): (n: nat)
    ensures n <= |s| && forall i :: 0 <= i < n ==> s[i] != c
    ensures n < |s| ==> s[n] == c
  {
    if s == "" || s[0] == c then 0 else IndexOf(s[1..], c) + 1
  }

  function DigitRun(s: string): (n: nat)
    ensures n <= |s| && forall i :: 0 <= i < n ==> IsDigit(s[i])
    ensures n < |s| ==> !IsDigit(s[n])
  {
    if s == "" || !IsDigit(s[0]) then 0 else DigitRun(s[1..]) + 1
  }

  function Value(digits: string): nat
    requires AllDigits(digits)
  {
    if digits == "" then 0 else Value(digits[..|digits| - 1]) * 10 + (digits[|digits| - 1] as int - '0' as int)
  }

  // ── The parser ────────────────────────────────────────────────────────────

  /** The part after the identifier: `_ch`, one to four digits, `_`, a word. */
  function ParseChannel(s: string): Option<nat> {
    if |s| < 3 || s[..3] != "_ch" then None
    else
      var rest := s[3..];
      var n := DigitRun(rest);
      if n == 0 || n > 4 || n == |rest| || rest[n] != '_' then None
      else if n + 1 == |rest| || !AllWord(rest[n + 1..]) then None
      else Some(Value(rest[..n]))
  }

  function ParseStreamName(s: string): Option<Stream> {
    if |s| < 4 || s[..4] != "nvr_" then None
    else
      var rest := s[4..];
      var n := IndexOf(rest, '_');
      if n == 0 then None
      else
        match ParseChannel(rest[n..])
        case None => None
        case Some(channel) => Some(Stream(rest[..n], channel))
  }

  /** `s` is the concatenation the pattern describes. */
  predicate Shape(s: string, id: string, digits: string, tail: string) {
    && s == "nvr_" + (id + ("_ch" + (digits + ("_" + tail))))
    && id != "" && '_' !in id
    && 1 <= |digits| <= 4 && AllDigits(digits)
    && tail != "" && AllWord(tail)
  }

  lemma {:induction false} FirstIndex(s: string, n: nat, c: char)
    requires n <= |s| && (forall i :: 0 <= i < n ==> s[i] != c) && (n < |s| ==> s[n] == c)
    ensures IndexOf(s, c) == n
  {
  }

  lemma {:induction false} RunLength(digits: string, rest: string)
    requires AllDigits(digits) && rest != "" && !IsDigit(rest[0])
    ensures DigitRun(digits + rest) == |digits|
  {
    assert (digits + rest)[|digits|] == rest[0];
    assert forall i :: 0 <= i < |digits| ==> (digits + rest)[i] == digits[i];
  }

  lemma {:induction false} ChannelOfShape(digits: string, tail: string)
    requires AllDigits(digits) && tail != "" && AllWord(tail)
    ensures ParseChannel("_ch" + (digits + ("_" + tail))) == if 1 <= |digits| <= 4 then Some(Value(digits)) else None
  {
    var s, rest := "_ch" + (digits + ("_" + tail)), digits + ("_" + tail);
    assert s[..3] == "_ch" && s[3..] == rest;
    RunLength(digits, "_" + tail);
    assert rest[..|digits|] == digits && rest[|digits| + 1..] == tail;
  }

  lemma {:induction false} IdOfShape(id: string, more: string)
    requires '_' !in id && more != "" && more[0] == '_'
    ensures var rest := id + more;
            IndexOf(rest, '_') == |id| && rest[..|id|] == id && rest[|id|..] == more
  {
    assert (id + more)[..|id|] == id;
    FirstIndex(id + more, |id|, '_');
  }

  /** A string of the pattern's shape parses to its parts. */
  lemma {:induction false} ShapeParses(s: string, id: string, digits: string, tail: string)
    requires Shape(s, id, digits, tail)
    ensures ParseStreamName(s) == Some(Stream(id, Value(digits)))
  {
    var more := "_ch" + (digits + ("_" + tail));
    assert s[..4] == "nvr_" && s[4..] == id + more;
    IdOfShape(id, more);
    ChannelOfShape(digits, tail);
  }

  lemma {:induction false} ChannelHasShape(s: string) returns (digits: string, tail: string)
    requires ParseChannel(s).Some?
    ensures s == "_ch" + (digits + ("_" + tail)) && 1 <= |digits| <= 4 && AllDigits(digits)
    ensures tail != "" && AllWord(tail) && ParseChannel(s) == Some(Value(digits))
  {
    var rest := s[3..];
    var n := DigitRun(rest);
    digits, tail := rest[..n], rest[n + 1..];
    assert rest == digits + (['_'] + tail);
    assert s == s[..3] + rest;
  }

  lemma {:induction false} NameHasParts(s: string) returns (id: string, more: string)
    requires ParseStreamName(s).Some?
    ensures s == "nvr_" + (id + more) && id != "" && '_' !in id
    ensures ParseChannel(more).Some? && ParseStreamName(s) == Some(Stream(id, ParseChannel(more).value))
  {
    var rest := s[4..];
    var n := IndexOf(rest, '_');
    id, more := rest[..n], rest[n..];
    assert rest == id + more;
    assert s == s[..4] + rest;
  }

  /** What parses has the pattern's shape. */
  lemma {:induction false} ParsedHasShape(s: string) returns (digits: string, tail: string)
    requires ParseStreamName(s).Some?
    ensures Shape(s, ParseStreamName(s).value.nvrId, digits, tail)
    ensures ParseStreamName(s).value.channel == Value(digits)
  {
    var id, more := NameHasParts(s);
    digits, tail := ChannelHasShape(more);
  }

  /** The parser accepts exactly the strings of the pattern and returns their parts. */
  lemma {:induction false} ParsesExactlyTheShape(s: string, id: string, channel: int)
    ensures ParseStreamName(s) == Some(Stream(id, channel)) <==>
              exists digits, tail :: Shape(s, id, digits, tail) && channel == Value(digits)
  {
    if ParseStreamName(s) == Some(Stream(id, channel)) {
      var digits, tail := ParsedHasShape(s);
    }
    forall digits, tail | Shape(s, id, digits, tail) && channel == Value(digits)
      ensures ParseStreamName(s) == Some(Stream(id, channel))
    {
      ShapeParses(s, id, digits, tail);
    }
  }

  lemma {:induction false} ChannelPartsUnique(digits: string, tail: string, digits': string, tail': string)
    requires AllDigits(digits) && AllDigits(digits') && digits + ("_" + tail) == digits' + ("_" + tail')
    ensures digits == digits' && tail == tail'
  {
    RunLength(digits, "_" + tail);
    RunLength(digits', "_" + tail');
    var s, s' := digits + ("_" + tail), digits' + ("_" + tail');
    assert s[..|digits|] == digits && s'[..|digits'|] == digits';
    assert s[|digits| + 1..] == tail && s'[|digits'| + 1..] == tail';
  }

  lemma {:induction false} IdPartsUnique(id: string, more: string, id': string, more': string)
    requires '_' !in id && '_' !in id' && more != "" && more[0] == '_' && more' != "" && more'[0] == '_'
    requires id + more == id' + more'
    ensures id == id' && more == more'
  {
    IdOfShape(id, more);
    IdOfShape(id', more');
  }

  lemma {:induction false} SamePrefix(prefix: string, a: string, b: string)
    requires prefix + a == prefix + b
    ensures a == b
  {
    assert (prefix + a)[|prefix|..] == a && (prefix + b)[|prefix|..] == b;
  }

  /** The pattern can be read in one way only. */
  lemma {:induction false} ShapeIsUnique(
    s: string, id: string, digits: string, tail: string, id': string, digits': string, tail': string)
    requires Shape(s, id, digits, tail) && Shape(s, id', digits', tail')
    ensures id == id' && digits == digits' && tail == tail'
  {
    var parts, parts' := digits + ("_" + tail), digits' + ("_" + tail');
    SamePrefix("nvr_", id + ("_ch" + parts), id' + ("_ch" + parts'));
    IdPartsUnique(id, "_ch" + parts, id', "_ch" + parts');
    SamePrefix("_ch", parts, parts');
    ChannelPartsUnique(digits, tail, digits', tail');
  }

  // ── The printer ───────────────────────────────────────────────────────────

  function Digit(d: nat): (c: char)
    requires d < 10
    ensures IsDigit(c) && c as int - '0' as int == d
  {
    ('0' as int + d) as char
  }

  function Decimal(n: nat): string {
    if n < 10 then [Digit(n)] else Decimal(n / 10) + [Digit(n % 10)]
  }

  function Text(n: int): string {
    if n >= 0 then Decimal(n) else "-" + Decimal(-n)
  }

  function PadTwo(s: string): string {
    if |s| >= 2 then s else if |s| == 1 then "0" + s else "00"
  }

  /** The name of a stream of one of the kinds `sub`, `main` and `main_h264`. */
  function StreamName(id: string, channel: int, kind: string): string {
    "nvr_" + (id + ("_ch" + (PadTwo(Text(channel)) + ("_" + kind))))
  }

  predicate Kind(kind: string) {
    kind == "sub" || kind == "main" || kind == "main_h264"
  }

  lemma {:induction false} DecimalRoundTrip(n: nat)
    ensures Decimal(n) != "" && AllDigits(Decimal(n)) && Value(Decimal(n)) == n
  {
    if n >= 10 {
      DecimalRoundTrip(n / 10);
      assert Decimal(n)[..|Decimal(n)| - 1] == Decimal(n / 10);
    } else {
      assert Decimal(n)[..0] == "";
    }
  }

  lemma {:induction false} DecimalLength(n: nat, k: nat, bound: nat)
    requires k >= 1 && bound == Power(k)
    ensures |Decimal(n)| <= k <==> n < bound
  {
    if k == 1 {
    } else if n >= 10 {
      DecimalLength(n / 10, k - 1, Power(k - 1));
    }
  }

  function Power(k: nat): (r: nat)
    ensures r >= 1 && (k >= 1 ==> r >= 10)
  {
    if k == 0 then 1 else 10 * Power(k - 1)
  }

  lemma {:induction false} LeadingZero(s: string)
    requires AllDigits(s)
    ensures AllDigits("0" + s) && Value("0" + s) == Value(s)
  {
    if s == "" {
      assert ("0" + s)[..0] == "";
    } else {
      LeadingZero(s[..|s| - 1]);
      assert ("0" + s)[..|s|] == "0" + s[..|s| - 1];
    }
  }

  lemma {:induction false} PaddedChannel(n: nat)
    ensures var p := PadTwo(Decimal(n));
            AllDigits(p) && Value(p) == n && |p| >= 1 && (|p| <= 4 <==> n <= 9999)
  {
    DecimalRoundTrip(n);
    DecimalLength(n, 4, 10000);
    LeadingZero(Decimal(n));
  }

  lemma {:induction false} NegativeIsNoChannel(n: int, tail: string)
    requires n < 0
    ensures ParseChannel("_ch" + (PadTwo(Text(n)) + ("_" + tail))) == None
  {
    DecimalRoundTrip(-n);
    var s, rest := "_ch" + (PadTwo(Text(n)) + ("_" + tail)), PadTwo(Text(n)) + ("_" + tail);
    assert s[3..] == rest && rest[0] == '-';
  }

  lemma {:induction false} KindIsWord(kind: string)
    requires Kind(kind)
    ensures kind != "" && AllWord(kind)
  {
  }

  /** The parser inverts the printer exactly for identifiers that are not empty and hold no
      underscore and for channels of at most four digits. */
  lemma {:induction false} ParserInvertsPrinter(id: string, channel: int, kind: string)
    requires Kind(kind)
    ensures ParseStreamName(StreamName(id, channel, kind)) == Some(Stream(id, channel)) <==>
              id != "" && '_' !in id && 0 <= channel <= 9999
  {
    var s := StreamName(id, channel, kind);
    KindIsWord(kind);
    if id == "" || '_' in id {
      NoSuchId(s, id, channel);
    } else if channel >= 0 {
      PaddedChannel(channel);
      if channel <= 9999 {
        ShapeParses(s, id, PadTwo(Text(channel)), kind);
      } else {
        var more := "_ch" + (PadTwo(Text(channel)) + ("_" + kind));
        assert s[..4] == "nvr_" && s[4..] == id + more;
        IdOfShape(id, more);
        ChannelOfShape(PadTwo(Text(channel)), kind);
      }
    } else {
      var more := "_ch" + (PadTwo(Text(channel)) + ("_" + kind));
      assert s[..4] == "nvr_" && s[4..] == id + more;
      IdOfShape(id, more);
      NegativeIsNoChannel(channel, kind);
    }
  }

  lemma {:induction false} NoSuchId(s: string, id: string, channel: int)
    requires id == "" || '_' in id
    ensures ParseStreamName(s) != Some(Stream(id, channel))
  {
    if ParseStreamName(s).Some? {
      var digits, tail := ParsedHasShape(s);
    }
  }

  /** Printing what was parsed, under any kind, names the same stream. */
  lemma {:induction false} ReprintedIsSame(s: string, kind: string)
    requires ParseStreamName(s).Some? && Kind(kind)
    ensures var v := ParseStreamName(s).value;
            ParseStreamName(StreamName(v.nvrId, v.channel, kind)) == ParseStreamName(s)
  {
    var v := ParseStreamName(s).value;
    var digits, tail := ParsedHasShape(s);
    FourDigits(digits);
    ParserInvertsPrinter(v.nvrId, v.channel, kind);
  }

  lemma {:induction false} FourDigits(digits: string)
    requires AllDigits(digits)
    ensures Value(digits) < Power(|digits|)
    ensures |digits| <= 4 ==> Value(digits) <= 9999
  {
    if digits == "" {
    } else {
      FourDigits(digits[..|digits| - 1]);
    }
  }

  // ── The URI ───────────────────────────────────────────────────────────────

  function Segments(path: string): (r: seq<string>)
    ensures r != []
    decreases |path|
  {
    var n := IndexOf(path, '/');
    if n == |path| then [path] else [path[..n]] + Segments(path[n + 1..])
  }

  predicate Dots(segment: string) {
    segment == "." || segment == ".."
  }

  predicate HasDots(path: string) {
    exists i :: 0 <= i < |Segments(path)| && Dots(Segments(path)[i])
  }

  function WithoutLeadingSlashes(s: string): (r: string)
    ensures r == "" || r[0] != '/'
  {
    if s != "" && s[0] == '/' then WithoutLeadingSlashes(s[1..]) else s
  }

  function TrimStart(s: string): string {
    if s != "" && IsSpace(s[0]) then TrimStart(s[1..]) else s
  }

  function TrimEnd(s: string): string {
    if s != "" && IsSpace(s[|s| - 1]) then TrimEnd(s[..|s| - 1]) else s
  }

  function WithoutQuery(uri: string): string {
    uri[..IndexOf(uri, '?')]
  }

  function WithoutHls(path: string): string {
    var p := WithoutLeadingSlashes(path);
    if |p| >= 4 && p[..4] == "hls/" then p[4..] else p
  }

  function StreamNameFromUri(uri: Option<string>): Option<string> {
    if uri.None? || uri.value == "" then None
    else
      var path := WithoutQuery(uri.value);
      if HasDots(path) then None
      else
        var segment := TrimEnd(TrimStart(Segments(WithoutHls(path))[0]));
        if segment == "" then None else Some(segment)
  }

  /** The stream a URI is checked for. */
  function StreamOfUri(uri: Option<string>): Option<Stream> {
    match StreamNameFromUri(uri)
    case None => None
    case Some(name) => ParseStreamName(name)
  }

  /** A query, if any, is in `rest`. */
  lemma {:induction false} QueryIsInRest(path: string, rest: string)
    requires '?' !in path
    ensures WithoutQuery(path + rest) == path + WithoutQuery(rest)
  {
    var n := IndexOf(rest, '?');
    FirstIndex(path + rest, |path| + n, '?');
    assert (path + rest)[..|path| + n] == path + rest[..n];
  }

  lemma {:induction false} FirstSegment(segment: string, rest: string)
    requires '/' !in segment
    ensures Segments(segment + ("/" + rest)) == [segment] + Segments(rest)
  {
    var path := segment + ("/" + rest);
    FirstIndex(path, |segment|, '/');
    assert path[..|segment|] == segment && path[|segment| + 1..] == rest;
  }

  lemma {:induction false} HasDotsAfter(segment: string, rest: string)
    requires '/' !in segment
    ensures HasDots(segment + ("/" + rest)) <==> Dots(segment) || HasDots(rest)
  {
    var all, more := Segments(segment + ("/" + rest)), Segments(rest);
    FirstSegment(segment, rest);
    assert all[0] == segment;
    if HasDots(rest) {
      var i :| 0 <= i < |more| && Dots(more[i]);
      assert all[i + 1] == more[i];
    }
  }

  /** A URI of a stream below `/hls/`; `rest` holds the file and the query. */
  function HlsUri(name: string, rest: string): string {
    "/hls/" + (name + ("/" + rest))
  }

  lemma {:induction false} HlsPrefix(name: string, rest: string)
    requires name != "" && name[0] != '/' && '/' !in name
    ensures WithoutHls(HlsUri(name, rest)) == name + ("/" + rest)
    ensures HasDots(HlsUri(name, rest)) <==> Dots(name) || HasDots(rest)
  {
    var tail := name + ("/" + rest);
    var path := "/hls/" + tail;
    assert path[1..] == "hls/" + tail;
    assert WithoutLeadingSlashes(path) == WithoutLeadingSlashes("hls/" + tail) == "hls/" + tail;
    assert ("hls/" + tail)[4..] == tail;
    assert path == "" + ("/" + ("hls" + ("/" + tail)));
    HasDotsAfter("", "hls" + ("/" + tail));
    HasDotsAfter("hls", tail);
    HasDotsAfter(name, rest);
  }

  /** A name that trims to itself is found in its URI, whatever the query, exactly when no
      segment after it is `.` or `..`. */
  lemma {:induction false} NameFoundInUri(name: string, rest: string)
    requires name != "" && '/' !in name && '?' !in name && !Dots(name)
    requires !IsSpace(name[0]) && !IsSpace(name[|name| - 1])
    ensures StreamNameFromUri(Some(HlsUri(name, rest))) == if HasDots(WithoutQuery(rest)) then None else Some(name)
  {
    var file := WithoutQuery(rest);
    var path := "/hls/" + (name + "/");
    assert HlsUri(name, rest) == path + rest && HlsUri(name, file) == path + file;
    assert '?' !in "/hls/" && '?' !in name + "/";
    QueryIsInRest(path, rest);
    HlsPrefix(name, file);
    FirstSegment(name, file);
  }

  lemma {:induction false} TrimTakesAway(s: string)
    ensures forall c :: c in TrimStart(s) ==> c in s
    ensures forall c :: c in TrimEnd(s) ==> c in s
  {
    if s == "" {
    } else {
      TrimTakesAway(s[1..]);
      TrimTakesAway(s[..|s| - 1]);
    }
  }

  lemma {:induction false} SlashesTakeAway(s: string)
    ensures forall c :: c in WithoutLeadingSlashes(s) ==> c in s
  {
    if s == "" {
    } else {
      SlashesTakeAway(s[1..]);
    }
  }

  lemma {:induction false} HlsTakesAway(path: string)
    ensures forall c :: c in WithoutHls(path) ==> c in path
  {
    SlashesTakeAway(path);
    assert forall c :: c in WithoutHls(path) ==> c in WithoutLeadingSlashes(path);
  }

  lemma {:induction false} SegmentIsPart(path: string)
    ensures '/' !in Segments(path)[0] && forall c :: c in Segments(path)[0] ==> c in path
  {
  }

  /** The name found in a URI is one segment of its path. */
  lemma {:induction false} NameIsOneSegment(uri: string)
    requires StreamNameFromUri(Some(uri)).Some?
    ensures var name := StreamNameFromUri(Some(uri)).value;
            name != "" && '/' !in name && '?' !in name
  {
    var path := WithoutQuery(uri);
    assert '?' !in path;
    HlsTakesAway(path);
    SegmentIsPart(WithoutHls(path));
    TrimTakesAway(Segments(WithoutHls(path))[0]);
    TrimTakesAway(TrimStart(Segments(WithoutHls(path))[0]));
  }

  lemma {:induction false} IdIsPart(s: string)
    requires ParseStreamName(s).Some?
    ensures forall c :: c in ParseStreamName(s).value.nvrId ==> c in s
  {
    var id, more := NameHasParts(s);
    assert forall c :: c in id ==> c in id + more;
  }

  lemma {:induction false} NameSpelled(id: string, channel: int, kind: string)
    requires Kind(kind) && '/' !in id && '?' !in id
    ensures var name := StreamName(id, channel, kind);
            && '/' !in name && '?' !in name && !Dots(name)
            && name[0] == 'n' && (name[|name| - 1] == 'b' || name[|name| - 1] == 'n' || name[|name| - 1] == '4')
  {
    ChannelSpelled(channel);
    var name, number := StreamName(id, channel, kind), PadTwo(Text(channel));
    assert name[|name| - 1] == kind[|kind| - 1];
    assert '/' !in "nvr_" && '?' !in "nvr_" && '/' !in "_ch" && '?' !in "_ch";
    assert '/' !in "_" + kind && '?' !in "_" + kind;
  }

  lemma {:induction false} ChannelSpelled(channel: int)
    ensures '/' !in PadTwo(Text(channel)) && '?' !in PadTwo(Text(channel))
  {
    DecimalRoundTrip(if channel >= 0 then channel else -channel);
  }

  /** Wrapped as a URI below `/hls/`, with any file and query after it, a printed name is
      checked for the stream it was printed for exactly when the identifier is not empty and
      holds no underscore, slash or question mark, the channel has at most four digits, and
      no later segment is `.` or `..`; blanks inside the identifier do no harm. */
  lemma {:induction false} UriNamesItsStream(id: string, channel: int, kind: string, rest: string)
    requires Kind(kind)
    ensures StreamOfUri(Some(HlsUri(StreamName(id, channel, kind), rest))) == Some(Stream(id, channel)) <==>
              && id != "" && '_' !in id && '/' !in id && '?' !in id
              && 0 <= channel <= 9999 && !HasDots(WithoutQuery(rest))
  {
    var uri := HlsUri(StreamName(id, channel, kind), rest);
    if '/' in id || '?' in id {
      if StreamOfUri(Some(uri)).Some? {
        NameIsOneSegment(uri);
        IdIsPart(StreamNameFromUri(Some(uri)).value);
      }
    } else {
      NameSpelled(id, channel, kind);
      NameFoundInUri(StreamName(id, channel, kind), rest);
      ParserInvertsPrinter(id, channel, kind);
    }
  }

  /** A single file name below the stream makes a traversal only by being `.` or `..`. */
  lemma {:induction false} OneFile(file: string)
    requires '/' !in file
    ensures HasDots(file) <==> file == "." || file == ".."
  {
    FirstIndex(file, |file|, '/');
    assert Segments(file)[0] == file;
  }

  // ── The alphabet, the prefix and the trimming ─────────────────────────────

  /** Digits, letters and the underscore, by their codes. */
  lemma {:induction false} WordCharacters(c: char)
    ensures IsDigit(c) <==> 48 <= c as int <= 57
    ensures IsWord(c) <==> (48 <= c as int <= 57 || 65 <= c as int <= 90 || c as int == 95 || 97 <= c as int <= 122)
  {
  }

  /** White space and line ends, by their codes. */
  lemma {:induction false} SpaceCharacters(c: char)
    ensures IsSpace(c) <==>
              var k := c as int;
              || 9 <= k <= 13 || k == 32 || k == 0xA0 || k == 0x1680 || 0x2000 <= k <= 0x200A
              || k == 0x2028 || k == 0x2029 || k == 0x202F || k == 0x205F || k == 0x3000 || k == 0xFEFF
  {
  }

  /** The channel has at least two digits in a printed name. */
  lemma {:induction false} ChannelIsPadded(id: string, channel: nat, kind: string)
    ensures var ones := (48 + channel % 10) as char;
            StreamName(id, channel, kind) ==
              if channel <= 9 then "nvr_" + (id + ("_ch" + (['0', ones] + ("_" + kind))))
              else "nvr_" + (id + ("_ch" + (Decimal(channel) + ("_" + kind))))
  {
    if channel <= 9 {
      assert "0" + Decimal(channel) == ['0', (48 + channel % 10) as char];
    } else {
      DecimalLength(channel, 1, 10);
    }
  }

  function Slashes(n: nat): string {
    if n == 0 then "" else "/" + Slashes(n - 1)
  }

  lemma {:induction false} SlashesDropped(n: nat, s: string)
    requires s != "" && s[0] != '/'
    ensures WithoutLeadingSlashes(Slashes(n) + s) == s
  {
    if n == 0 {
      assert Slashes(0) + s == s;
    } else {
      SlashesDropped(n - 1, s);
      assert (Slashes(n) + s)[1..] == Slashes(n - 1) + s;
    }
  }

  lemma {:induction false} SlashesHaveNoDots(n: nat, path: string)
    ensures HasDots(Slashes(n) + path) <==> HasDots(path)
  {
    if n == 0 {
      assert Slashes(0) + path == path;
    } else {
      SlashesHaveNoDots(n - 1, path);
      assert Slashes(n) + path == "" + ("/" + (Slashes(n - 1) + path));
      HasDotsAfter("", Slashes(n - 1) + path);
    }
  }

  /** A segment after any number of slashes, with or without the prefix `hls/`. */
  function UriOf(slashes: nat, prefixed: bool, segment: string, rest: string): string {
    Slashes(slashes) + ((if prefixed then "hls/" else "") + (segment + ("/" + rest)))
  }

  lemma {:induction false} SlashesAreSlashes(n: nat)
    ensures forall c :: c in Slashes(n) ==> c == '/'
  {
    if n > 0 {
      SlashesAreSlashes(n - 1);
    }
  }

  lemma {:induction false} QueryInUri(slashes: nat, prefixed: bool, segment: string, rest: string)
    requires '?' !in segment
    ensures WithoutQuery(UriOf(slashes, prefixed, segment, rest)) ==
              UriOf(slashes, prefixed, segment, WithoutQuery(rest))
  {
    var prefix, file := if prefixed then "hls/" else "", WithoutQuery(rest);
    var front := Slashes(slashes) + (prefix + (segment + "/"));
    SlashesAreSlashes(slashes);
    assert '?' !in prefix;
    assert UriOf(slashes, prefixed, segment, rest) == front + rest;
    assert UriOf(slashes, prefixed, segment, file) == front + file;
    QueryIsInRest(front, rest);
  }

  lemma {:induction false} PrefixedDropped(slashes: nat, tail: string)
    requires tail != ""
    ensures WithoutHls(Slashes(slashes) + ("hls/" + tail)) == tail
    ensures HasDots(Slashes(slashes) + ("hls/" + tail)) <==> HasDots(tail)
  {
    assert "hls/" + tail == "hls" + ("/" + tail);
    HasDotsAfter("hls", tail);
    SlashesDropped(slashes, "hls/" + tail);
    SlashesHaveNoDots(slashes, "hls/" + tail);
    assert ("hls/" + tail)[4..] == tail;
  }

  lemma {:induction false} BareKept(slashes: nat, segment: string, rest: string)
    requires segment != "" && '/' !in segment && segment != "hls"
    ensures var tail := segment + ("/" + rest);
            && WithoutHls(Slashes(slashes) + tail) == tail
            && (HasDots(Slashes(slashes) + tail) <==> HasDots(tail))
  {
    var tail := segment + ("/" + rest);
    SlashesDropped(slashes, tail);
    SlashesHaveNoDots(slashes, tail);
    NotThePrefix(segment, rest);
  }

  lemma {:induction false} PrefixDropped(slashes: nat, prefixed: bool, segment: string, rest: string)
    requires segment != "" && '/' !in segment && (prefixed || segment != "hls")
    ensures WithoutHls(UriOf(slashes, prefixed, segment, rest)) == segment + ("/" + rest)
    ensures HasDots(UriOf(slashes, prefixed, segment, rest)) <==> Dots(segment) || HasDots(rest)
  {
    var tail := segment + ("/" + rest);
    HasDotsAfter(segment, rest);
    if prefixed {
      PrefixedDropped(slashes, tail);
    } else {
      assert "" + tail == tail;
      BareKept(slashes, segment, rest);
    }
  }

  lemma {:induction false} NotThePrefix(segment: string, rest: string)
    requires '/' !in segment && segment != "hls"
    ensures var tail := segment + ("/" + rest);
            !(|tail| >= 4 && tail[..4] == "hls/")
  {
    var tail := segment + ("/" + rest);
    var hls := "hls/";
    assert tail[|segment|] == '/' && hls[0] != '/' && hls[1] != '/' && hls[2] != '/' && hls[3] == '/';
    if |segment| < 3 {
      assert tail[|segment|] != hls[|segment|];
    } else if |segment| > 3 {
      assert tail[3] == segment[3] && segment[3] in segment;
    } else {
      assert tail[..4] == segment + "/";
      assert (segment + "/")[..3] == segment && hls[..3] == "hls";
    }
  }

  lemma {:induction false} NoDotsInPrefix(slashes: nat)
    ensures !HasDots(Slashes(slashes) + "hls/")
  {
    SlashesHaveNoDots(slashes, "hls/");
    assert "hls/" == "hls" + ("/" + "");
    HasDotsAfter("hls", "");
    OneFile("");
  }

  /** The bare prefix names nothing. */
  lemma {:induction false} PrefixNamesNothing(slashes: nat)
    ensures StreamNameFromUri(Some(Slashes(slashes) + "hls/")) == None
  {
    var uri := Slashes(slashes) + "hls/";
    SlashesAreSlashes(slashes);
    assert '?' !in "hls/";
    assert forall i :: 0 <= i < |uri| ==> uri[i] in uri;
    FirstIndex(uri, |uri|, '?');
    assert WithoutQuery(uri) == uri;
    NoDotsInPrefix(slashes);
    SlashesDropped(slashes, "hls/");
    assert WithoutHls(uri) == "";
    assert Segments("") == [""];
  }

  predicate Blank(s: string) {
    forall i :: 0 <= i < |s| ==> IsSpace(s[i])
  }

  lemma {:induction false} StartTrimmed(pre: string, rest: string)
    requires Blank(pre) && rest != "" && !IsSpace(rest[0])
    ensures TrimStart(pre + rest) == rest
  {
    if pre == "" {
      assert pre + rest == rest;
    } else {
      StartTrimmed(pre[1..], rest);
      assert (pre + rest)[1..] == pre[1..] + rest;
    }
  }

  lemma {:induction false} EndTrimmed(rest: string, post: string)
    requires Blank(post) && rest != "" && !IsSpace(rest[|rest| - 1])
    ensures TrimEnd(rest + post) == rest
  {
    if post == "" {
      assert rest + post == rest;
    } else {
      EndTrimmed(rest, post[..|post| - 1]);
      assert (rest + post)[..|rest + post| - 1] == rest + post[..|post| - 1];
    }
  }

  /** The name is the first segment, after any number of slashes, with or without the prefix
      `hls/` and with blanks around it dropped; a later `.` or `..` rejects the URI, and the
      query does not matter. */
  lemma {:induction false} NameIsFirstSegment(
    slashes: nat, prefixed: bool, pre: string, name: string, post: string, rest: string)
    requires Blank(pre) && Blank(post) && name != "" && !IsSpace(name[0]) && !IsSpace(name[|name| - 1])
    requires '/' !in name && '?' !in name && !Dots(pre + (name + post)) && (prefixed || pre + (name + post) != "hls")
    ensures StreamNameFromUri(Some(UriOf(slashes, prefixed, pre + (name + post), rest))) ==
              if HasDots(WithoutQuery(rest)) then None else Some(name)
  {
    var segment, file := pre + (name + post), WithoutQuery(rest);
    assert '/' !in segment && '?' !in segment;
    QueryInUri(slashes, prefixed, segment, rest);
    PrefixDropped(slashes, prefixed, segment, file);
    FirstSegment(segment, file);
    StartTrimmed(pre, name + post);
    EndTrimmed(name, post);
  }
}
