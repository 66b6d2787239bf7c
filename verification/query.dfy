/** Dotted-path queries over JSON-like data: the tokeniser and the evaluator. */
module Query {
  import opened Wrappers
  import opened Text

  datatype Json =
    | Null
    | Bool(b: bool)
    | Number(n: real)
    | Text(s: string)
    | List(items: seq<Json>)
    | Dict(entries: map<string, Json>)

  /** The kinds of exception a query raises, without their messages. */
  datatype QueryError = ValueError | TypeError

  // ----- Bracket depth -----

  /** Opening minus closing brackets. */
  function Depth(p: string): int {
    if p == "" then 0
    else
      var d, c := Depth(p[..|p| - 1]), p[|p| - 1];
      if c == '[' then d + 1 else if c == ']' then d - 1 else d
  }

  /** No prefix closes more brackets than it opens. */
  predicate Opened(p: string) {
    p != "" ==> Opened(p[..|p| - 1]) && Depth(p) >= 0
  }

  predicate Balanced(p: string) {
    Opened(p) && Depth(p) == 0
  }

  /** Every dot is inside brackets. */
  predicate NoTopLevelDot(p: string) {
    p != "" ==> NoTopLevelDot(p[..|p| - 1]) && (p[|p| - 1] == '.' ==> Depth(p[..|p| - 1]) > 0)
  }

  // ----- The tokeniser -----

  /** The loop variables of the tokeniser. */
  datatype Scan = Scan(segments: seq<string>, current: string, depth: nat)

  function ScanChar(st: Scan, ch: char): Option<Scan> {
    if ch == '[' then Some(st.(current := st.current + [ch], depth := st.depth + 1))
    else if ch == ']' then
      if st.depth == 0 then None else Some(st.(current := st.current + [ch], depth := st.depth - 1))
    else if ch == '.' && st.depth == 0 then
      Some(if st.current == "" then st else Scan(st.segments + [st.current], "", 0))
    else Some(st.(current := st.current + [ch]))
  }

  /** The loop variables after `p`; none if an unmatched bracket was closed on the way. */
  function ScanAll(p: string): Option<Scan> {
    if p == "" then Some(Scan([], "", 0))
    else
      match ScanAll(p[..|p| - 1])
      case None => None
      case Some(st) => ScanChar(st, p[|p| - 1])
  }

  function Flush(st: Scan): seq<string> {
    st.segments + if st.current == "" then [] else [st.current]
  }

  function Tokens(p: string): Result<seq<string>, QueryError> {
    match ScanAll(p)
    case None => Err(ValueError)
    case Some(st) => if st.depth != 0 then Err(ValueError) else Ok(Flush(st))
  }

  method Tokenise(path: string) returns (r: Result<seq<string>, QueryError>)
    ensures r == Tokens(path)
    ensures r.Ok? <==> Balanced(path)
  {
    TokensOkExactly(path);
    var segments: seq<string>, current: string, depth: nat := [], "", 0;
    for i := 0 to |path|
      invariant ScanAll(path[..i]) == Some(Scan(segments, current, depth))
    {
      var ch := path[i];
      ScanPrefix(path, i);
      if ch == '[' {
        depth := depth + 1;
        current := current + [ch];
      } else if ch == ']' {
        if depth == 0 {
          ScanStuck(path, i + 1);
          return Err(ValueError);
        }
        depth := depth - 1;
        current := current + [ch];
      } else if ch == '.' && depth == 0 {
        if current != "" {
          segments := segments + [current];
          current := "";
        }
      } else {
        current := current + [ch];
      }
    }
    assert path[..|path|] == path;
    assert segments + [] == segments;
    if depth != 0 {
      return Err(ValueError);
    }
    if current != "" {
      segments := segments + [current];
    }
    return Ok(segments);
  }

  lemma ScanPrefix(p: string, i: nat)
    requires i < |p|
    ensures ScanAll(p[..i + 1]) == match ScanAll(p[..i]) { case None => None case Some(st) => ScanChar(st, p[i]) }
  {
    assert p[..i + 1][..i] == p[..i];
  }

  /** A failed scan stays failed. */
  lemma {:induction false} ScanStuck(p: string, n: nat)
    requires n <= |p| && ScanAll(p[..n]).None?
    ensures ScanAll(p).None?
    decreases |p| - n
  {
    if n == |p| {
      assert p[..n] == p;
    } else {
      ScanPrefix(p, n);
      ScanStuck(p, n + 1);
    }
  }

  /** The scan fails exactly when a prefix closes an unopened bracket, and otherwise knows
      the depth. */
  lemma {:induction false} ScanKnowsDepth(p: string)
    ensures ScanAll(p).Some? <==> Opened(p)
    ensures ScanAll(p).Some? ==> ScanAll(p).value.depth == Depth(p)
  {
    if p != "" {
      ScanKnowsDepth(p[..|p| - 1]);
    }
  }

  /** A path is accepted exactly when its brackets are balanced. */
  lemma TokensOkExactly(p: string)
    ensures Tokens(p).Ok? <==> Balanced(p)
  {
    ScanKnowsDepth(p);
  }

  // ----- Joining paths -----

  /** The scan of a path goes on after `segments` as it would from the start. */
  function Resume(segments: seq<string>, st: Option<Scan>): Option<Scan> {
    match st
    case None => None
    case Some(s) => Some(s.(segments := segments + s.segments))
  }

  lemma ResumeChar(segments: seq<string>, st: Scan, ch: char)
    ensures ScanChar(st.(segments := segments + st.segments), ch) == Resume(segments, ScanChar(st, ch))
  {
    assert segments + (st.segments + [st.current]) == segments + st.segments + [st.current];
  }

  lemma {:induction false} ScanAfterDot(p: string, q: string)
    requires Tokens(p).Ok?
    ensures ScanAll(p + "." + q) == Resume(Tokens(p).value, ScanAll(q))
    decreases |q|
  {
    var whole := p + "." + q;
    if q == "" {
      var st := ScanAll(p).value;
      assert whole[..|whole| - 1] == p && whole[|whole| - 1] == '.';
      assert st.segments + [] == st.segments && Flush(st) + [] == Flush(st);
    } else {
      var init := q[..|q| - 1];
      ScanAfterDot(p, init);
      assert whole[..|whole| - 1] == p + "." + init && whole[|whole| - 1] == q[|q| - 1];
      if ScanAll(init).Some? {
        ResumeChar(Tokens(p).value, ScanAll(init).value, q[|q| - 1]);
      }
    }
  }

  function Append(a: seq<string>, b: Result<seq<string>, QueryError>): Result<seq<string>, QueryError> {
    match b
    case Ok(v) => Ok(a + v)
    case Err(e) => Err(e)
  }

  /** After a balanced path, a dot separates: the tokens of the two parts are concatenated,
      and the second part is accepted or rejected as it is by itself. */
  lemma TokensOfDotted(p: string, q: string)
    requires Balanced(p)
    ensures Tokens(p).Ok? && Tokens(p + "." + q) == Append(Tokens(p).value, Tokens(q))
  {
    TokensOkExactly(p);
    ScanAfterDot(p, q);
    if ScanAll(q).Some? {
      var a, st := Tokens(p).value, ScanAll(q).value;
      assert Flush(st.(segments := a + st.segments)) == a + Flush(st);
    }
  }

  // ----- Segments -----

  /** What a token looks like. */
  ghost predicate IsSegment(s: string) {
    s != "" && Balanced(s) && NoTopLevelDot(s)
  }

  lemma {:induction false} ScanSegment(s: string)
    requires Opened(s) && NoTopLevelDot(s)
    ensures ScanAll(s).Some? && ScanAll(s).value.segments == [] && ScanAll(s).value.current == s
  {
    ScanKnowsDepth(s);
    if s != "" {
      var n := |s| - 1;
      var init := s[..n];
      ScanSegment(init);
      ScanKnowsDepth(init);
      assert init + [s[n]] == s;
    }
  }

  lemma SegmentIsItsToken(s: string)
    requires IsSegment(s)
    ensures Tokens(s) == Ok([s])
  {
    ScanSegment(s);
    TokensOkExactly(s);
    assert [] + [s] == [s];
  }

  function JoinDots(segments: seq<string>): string {
    if segments == [] then ""
    else if |segments| == 1 then segments[0]
    else segments[0] + "." + JoinDots(segments[1..])
  }

  /** Joining segments with dots and tokenising gives them back. */
  lemma {:induction false} TokensOfJoined(segments: seq<string>)
    requires forall s | s in segments :: IsSegment(s)
    ensures Tokens(JoinDots(segments)) == Ok(segments)
  {
    if segments == [] {
      assert Flush(Scan([], "", 0)) == [];
    } else {
      assert IsSegment(segments[0]);
      SegmentIsItsToken(segments[0]);
      if |segments| == 1 {
        assert segments == [segments[0]];
      } else {
        var rest := JoinDots(segments[1..]);
        TokensOfJoined(segments[1..]);
        TokensOfDotted(segments[0], rest);
        assert segments == [segments[0]] + segments[1..];
        assert JoinDots(segments) == segments[0] + "." + rest;
      }
    }
  }

  /** While scanning, finished segments are segments and the current one is the start of one. */
  ghost predicate ScanOk(st: Scan) {
    && (forall s | s in st.segments :: IsSegment(s))
    && Opened(st.current) && NoTopLevelDot(st.current) && Depth(st.current) == st.depth
  }

  lemma GrowCurrent(cur: string, ch: char)
    requires Opened(cur) && NoTopLevelDot(cur)
    requires ch == ']' || ch == '.' ==> Depth(cur) > 0
    ensures Opened(cur + [ch]) && NoTopLevelDot(cur + [ch])
    ensures Depth(cur + [ch]) == Depth(cur) + if ch == '[' then 1 else if ch == ']' then -1 else 0
  {
    assert (cur + [ch])[..|cur|] == cur;
  }

  lemma {:induction false} ScanKeepsOk(p: string)
    ensures ScanAll(p).Some? ==> ScanOk(ScanAll(p).value)
  {
    if p != "" && ScanAll(p).Some? {
      var n := |p| - 1;
      ScanKeepsOk(p[..n]);
      var st, ch := ScanAll(p[..n]).value, p[n];
      if !(ch == '.' && st.depth == 0) {
        GrowCurrent(st.current, ch);
      }
    }
  }

  /** The tokens of an accepted path are segments, so joining them is a normal form of it. */
  lemma TokensAreSegments(p: string)
    requires Balanced(p)
    ensures Tokens(p).Ok? && forall s | s in Tokens(p).value :: IsSegment(s)
    ensures Tokens(JoinDots(Tokens(p).value)) == Tokens(p)
  {
    TokensOkExactly(p);
    ScanKeepsOk(p);
    TokensOfJoined(Tokens(p).value);
  }

  // ----- Field names and indices -----

  predicate IsLetter(c: char) {
    'a' <= c <= 'z' || 'A' <= c <= 'Z' || c == '_'
  }

  predicate IsIdentifier(s: string) {
    s != "" && IsLetter(s[0]) && forall c | c in s :: IsLetter(c) || IsDigit(c)
  }

  /** `$` in a pattern also matches before a final newline. */
  function DropNewline(s: string): string {
    if s != "" && s[|s| - 1] == '\n' then s[..|s| - 1] else s
  }

  /** The integer of an index part such as "[0]" or "[-1]". */
  function ParseIndex(part: string): Option<int> {
    var s := DropNewline(part);
    if |s| < 3 || s[0] != '[' || s[|s| - 1] != ']' then None
    else
      var body := s[1..|s| - 1];
      if IsNumeral(body) then Some(ParseNat(body))
      else if body[0] == '-' && IsNumeral(body[1..]) then
        var n: int := ParseNat(body[1..]);
        Some(-n)
      else None
  }

  function PrintIndex(i: int): string {
    if i < 0 then "[-" + PrintNat(-i) + "]" else "[" + PrintNat(i) + "]"
  }

  /** Every integer is the index of its printed form. */
  lemma ParsePrintedIndex(i: int)
    ensures ParseIndex(PrintIndex(i)) == Some(i)
  {
    var digits := PrintNat(if i < 0 then -i else i);
    ParsePrinted(if i < 0 then -i else i);
    var s := PrintIndex(i);
    if i < 0 {
      assert s[1..|s| - 1] == "-" + digits;
      assert ("-" + digits)[0] == '-' && ("-" + digits)[1..] == digits;
      assert '-' in "-" + digits && !IsDigit('-');
    } else {
      assert s[1..|s| - 1] == digits;
    }
  }

  // ----- The evaluator -----

  function DictAccess(current: Json, key: string): Result<Json, QueryError> {
    if !IsIdentifier(DropNewline(key)) then Err(ValueError)
    else if !current.Dict? then Err(TypeError)
    else Ok(if key in current.entries then current.entries[key] else Null)
  }

  /** A list element, counted from the end if the index is negative; null if there is none. */
  function ListAccess(items: seq<Json>, idx: int): Json {
    if 0 <= idx < |items| then items[idx]
    else if -|items| <= idx < 0 then items[|items| + idx]
    else Null
  }

  function IndexAccess(current: Json, part: string): Result<Json, QueryError> {
    match ParseIndex(part)
    case None => Err(ValueError)
    case Some(idx) => if current.List? then Ok(ListAccess(current.items, idx)) else Err(TypeError)
  }

  predicate IsOpening(c: char) { c == '[' }

  predicate IsEquals(c: char) { c == '=' }

  predicate IsQuote(c: char) { c == '\'' || c == '"' }

  /** The first position whose character satisfies `p`. */
  function Find(s: string, p: char -> bool): Option<nat> {
    if s == "" then None
    else if p(s[0]) then Some(0)
    else match Find(s[1..], p) { case None => None case Some(i) => Some(i + 1) }
  }

  lemma {:induction false} FindIs(s: string, p: char -> bool)
    ensures match Find(s, p)
      case None => forall c | c in s :: !p(c)
      case Some(i) => i < |s| && p(s[i]) && forall c | c in s[..i] :: !p(c)
  {
    if s != "" {
      FindIs(s[1..], p);
      match Find(s[1..], p)
      case None =>
      case Some(i) => assert p(s[0]) || s[..i + 1] == [s[0]] + s[1..][..i];
    }
  }

  lemma FindFirst(s: string, p: char -> bool, i: nat)
    requires i < |s| && p(s[i]) && forall c | c in s[..i] :: !p(c)
    ensures Find(s, p) == Some(i)
  {
    FindIs(s, p);
    match Find(s, p)
    case None =>
    case Some(k) =>
      assert forall j | 0 <= j < i :: s[j] in s[..i];
      assert forall j | 0 <= j < k :: s[j] in s[..k];
  }

  function ApplySegment(current: Json, segment: string): Result<Json, QueryError> {
    FindIs(segment, IsOpening);
    match Find(segment, IsOpening)
    case None => DictAccess(current, segment)
    case Some(i) =>
      var field, part := segment[..i], segment[i..];
      if field == "" then IndexAccess(current, part)
      else
        match DictAccess(current, field)
        case Err(e) => Err(e)
        case Ok(v) => if v.Null? then Ok(Null) else IndexAccess(v, part)
  }

  /** The meaning of a list of segments: null absorbs, an error ends the walk. */
  function Walk(data: Json, segments: seq<string>): Result<Json, QueryError>
    decreases |segments|
  {
    if segments == [] then Ok(data)
    else if data.Null? then Ok(Null)
    else
      match ApplySegment(data, segments[0])
      case Err(e) => Err(e)
      case Ok(v) => Walk(v, segments[1..])
  }

  function Resolve(data: Json, path: string): Result<Json, QueryError> {
    match Tokens(path)
    case Err(e) => Err(e)
    case Ok(segments) => Walk(data, segments)
  }

  method ResolvePrefix(data: Json, path: string) returns (r: Result<Json, QueryError>)
    ensures r == Resolve(data, path)
  {
    if path == "" {
      return Ok(data);
    }
    var tokens := Tokenise(path);
    if tokens.Err? {
      return Err(tokens.error);
    }
    var segments := tokens.value;
    var current := data;
    for i := 0 to |segments|
      invariant Walk(data, segments) == Walk(current, segments[i..])
    {
      assert segments[i..][1..] == segments[i + 1..];
      if current.Null? {
        return Ok(Null);
      }
      var next := ApplySegment(current, segments[i]);
      if next.Err? {
        return next;
      }
      current := next.value;
    }
    return Ok(current);
  }

  function Then(r: Result<Json, QueryError>, path: string): Result<Json, QueryError> {
    match r
    case Err(e) => Err(e)
    case Ok(v) => Resolve(v, path)
  }

  lemma {:induction false} WalkNull(segments: seq<string>)
    ensures Walk(Null, segments) == Ok(Null)
  {
  }

  lemma {:induction false} WalkAppend(data: Json, a: seq<string>, b: seq<string>)
    ensures Walk(data, a + b) == match Walk(data, a) { case Err(e) => Err(e) case Ok(v) => Walk(v, b) }
    decreases |a|
  {
    if a == [] {
      assert a + b == b;
    } else {
      assert (a + b)[1..] == a[1..] + b;
      WalkNull(b);
      match ApplySegment(data, a[0])
      case Err(_) =>
      case Ok(v) => WalkAppend(v, a[1..], b);
    }
  }

  lemma {:induction false} WalkErrorKinds(data: Json, p: string, q: string)
    requires !Balanced(q)
    ensures Resolve(data, q) == Err(ValueError)
    ensures Balanced(p) ==> Resolve(data, p + "." + q) == Err(ValueError)
  {
    TokensOkExactly(q);
    if Balanced(p) {
      TokensOfDotted(p, q);
    }
  }

  /** Resolving a dotted path is resolving its parts in turn, with the same absence and the
      same error, for every balanced first part; except that a malformed second part is
      reported even where the first part alone raises a type error. */
  lemma ResolveComposesExactly(data: Json, p: string, q: string)
    requires Balanced(p)
    ensures Resolve(data, p + "." + q) == Then(Resolve(data, p), q)
        <==> Balanced(q) || Resolve(data, p) != Err(TypeError)
  {
    TokensOfDotted(p, q);
    TokensOkExactly(q);
    if Balanced(q) {
      WalkAppend(data, Tokens(p).value, Tokens(q).value);
    } else {
      WalkErrorKinds(data, p, q);
      if Resolve(data, p).Ok? {
        WalkErrorKinds(Resolve(data, p).value, p, q);
      } else {
        match Resolve(data, p).error
        case ValueError =>
        case TypeError =>
      }
    }
  }

  predicate Plain(s: string) {
    '[' !in s && ']' !in s && '.' !in s
  }

  lemma {:induction false} PlainIsClosed(s: string)
    requires Plain(s)
    ensures Depth(s) == 0 && Opened(s) && NoTopLevelDot(s)
  {
    if s != "" {
      PlainIsClosed(s[..|s| - 1]);
      assert s[|s| - 1] in s;
    }
  }

  /** Growing a token by text without brackets or dots. */
  lemma {:induction false} GrowPlain(s: string, more: string)
    requires Opened(s) && NoTopLevelDot(s) && Plain(more)
    ensures Opened(s + more) && NoTopLevelDot(s + more) && Depth(s + more) == Depth(s)
  {
    if more == "" {
      assert s + more == s;
    } else {
      var n := |more| - 1;
      GrowPlain(s, more[..n]);
      assert more[n] in more;
      GrowCurrent(s + more[..n], more[n]);
      assert s + more[..n] + [more[n]] == s + more;
    }
  }

  lemma Bracketed(field: string, body: string, s1: string, s2: string, s3: string)
    requires Plain(field) && Plain(body)
    requires s1 == field + ['['] && s2 == s1 + body && s3 == s2 + [']']
    ensures IsSegment(s3)
  {
    PlainIsClosed(field);
    GrowCurrent(field, '[');
    GrowPlain(s1, body);
    GrowCurrent(s2, ']');
  }

  lemma IndexedSegment(field: string, body: string)
    requires Plain(field) && Plain(body)
    ensures IsSegment(field + ("[" + body + "]"))
  {
    Bracketed(field, body, field + ['['], field + ['['] + body, field + ['['] + body + [']']);
    assert field + ['['] + body + [']'] == field + ("[" + body + "]");
  }

  /** Balance cannot be dropped: the two halves of "a[.]" fail, the whole does not. */
  lemma UnbalancedPartsCanJoin()
    ensures Tokens("a[").Err? && Tokens("]").Err? && Tokens("a[" + "." + "]") == Ok(["a[.]"])
  {
    PlainIsClosed("a");
    GrowCurrent("a", '[');
    assert "a" + ['['] == "a[" && "a[" + ['.'] == "a[." && "a[." + [']'] == "a[.]";
    TokensOkExactly("a[");
    GrowCurrent("a[", '.');
    GrowCurrent("a[.", ']');
    SegmentIsItsToken("a[.]");
    assert "]"[..0] == "";
    ScanPrefix("]", 0);
    assert "]"[..1] == "]";
    assert "a[" + "." + "]" == "a[.]";
  }

  lemma IdentifierIsPlain(s: string)
    requires IsIdentifier(s)
    ensures Plain(s) && DropNewline(s) == s
  {
    assert s[|s| - 1] in s;
  }

  lemma NumeralIsPlain(s: string)
    requires IsNumeral(s)
    ensures Plain(s) && Plain("-" + s)
  {
    assert forall c | c in "-" + s :: c == '-' || IsDigit(c);
  }

  lemma PrintedIndexSegment(field: string, i: int)
    requires IsIdentifier(field)
    ensures IsSegment(field + PrintIndex(i))
  {
    IdentifierIsPlain(field);
    if i < 0 {
      NumeralIsPlain(PrintNat(-i));
      IndexedSegment(field, "-" + PrintNat(-i));
      assert "[" + ("-" + PrintNat(-i)) + "]" == PrintIndex(i);
    } else {
      NumeralIsPlain(PrintNat(i));
      IndexedSegment(field, PrintNat(i));
    }
  }

  lemma FindAfter(before: string, after: string, p: char -> bool)
    requires (forall c | c in before :: !p(c)) && after != "" && p(after[0])
    ensures Find(before + after, p) == Some(|before|)
    ensures (before + after)[..|before|] == before && (before + after)[|before|..] == after
  {
    assert (before + after)[..|before|] == before;
    FindFirst(before + after, p, |before|);
  }

  lemma WalkOne(data: Json, segment: string)
    requires !data.Null?
    ensures Walk(data, [segment]) == ApplySegment(data, segment)
  {
    assert [segment][1..] == [];
  }

  /** A field followed by a printed index reads that element of the field's list, from its end
      if the index is negative, and null outside it. A missing or null field gives null, and
      anything that is no list, or no mapping with fields, a type error. */
  lemma FieldThenIndex(data: Json, field: string, i: int)
    requires IsIdentifier(field)
    ensures Resolve(data, field + PrintIndex(i)) ==
      if data.Null? then Ok(Null)
      else if !data.Dict? then Err(TypeError)
      else if field !in data.entries || data.entries[field].Null? then Ok(Null)
      else if !data.entries[field].List? then Err(TypeError)
      else
        var items := data.entries[field].items;
        Ok(if 0 <= i < |items| then items[i] else if -|items| <= i < 0 then items[|items| + i] else Null)
  {
    var segment := field + PrintIndex(i);
    PrintedIndexSegment(field, i);
    SegmentIsItsToken(segment);
    IdentifierIsPlain(field);
    FindAfter(field, PrintIndex(i), IsOpening);
    ParsePrintedIndex(i);
    if !data.Null? {
      WalkOne(data, segment);
    }
  }

  /** An index by itself reads an element of a list. */
  lemma IndexAlone(items: seq<Json>, i: int)
    ensures Resolve(List(items), PrintIndex(i)) ==
      Ok(if 0 <= i < |items| then items[i] else if -|items| <= i < 0 then items[|items| + i] else Null)
  {
    BareIndexSegment(i);
    SegmentIsItsToken(PrintIndex(i));
    FindAfter("", PrintIndex(i), IsOpening);
    assert "" + PrintIndex(i) == PrintIndex(i);
    ParsePrintedIndex(i);
    WalkOne(List(items), PrintIndex(i));
  }

  lemma BareIndexSegment(i: int)
    ensures IsSegment(PrintIndex(i))
  {
    var digits := PrintNat(if i < 0 then -i else i);
    NumeralIsPlain(digits);
    var body := if i < 0 then "-" + digits else digits;
    IndexedSegment("", body);
    assert "" + ("[" + body + "]") == PrintIndex(i);
  }

  /** Brackets after a field that hold no integer are a value error. */
  lemma BadIndex(entries: map<string, Json>, field: string, body: string)
    requires IsIdentifier(field) && field in entries && !entries[field].Null?
    requires Plain(body) && !IsNumeral(body) && !(body != "" && body[0] == '-' && IsNumeral(body[1..]))
    ensures Resolve(Dict(entries), field + ("[" + body + "]")) == Err(ValueError)
  {
    var part := "[" + body + "]";
    var segment := field + part;
    IdentifierIsPlain(field);
    IndexedSegment(field, body);
    SegmentIsItsToken(segment);
    FindAfter(field, part, IsOpening);
    assert part[1..|part| - 1] == body && DropNewline(part) == part;
    WalkOne(Dict(entries), segment);
  }

  lemma IdentifierIsSegment(field: string)
    requires IsIdentifier(field)
    ensures IsSegment(field) && Tokens(field) == Ok([field]) && Find(field, IsOpening) == None
  {
    IdentifierIsPlain(field);
    PlainIsClosed(field);
    SegmentIsItsToken(field);
    FindIs(field, IsOpening);
  }

  /** A path without brackets or dots that is no field name is a value error: field names begin
      with a letter or an underscore and go on with these or digits. */
  lemma BadField(data: Json, s: string)
    requires Plain(s) && s != "" && '\n' !in s && !data.Null?
    requires s[0] in "0123456789" || exists c | c in s ::
      !('a' <= c <= 'z') && !('A' <= c <= 'Z') && c != '_' && !('0' <= c <= '9')
    ensures Resolve(data, s) == Err(ValueError)
  {
    NotAField(s);
    PlainIsClosed(s);
    SegmentIsItsToken(s);
    FindIs(s, IsOpening);
    WalkOne(data, s);
  }

  lemma NotAField(s: string)
    requires s != "" && '\n' !in s
    requires s[0] in "0123456789" || exists c | c in s ::
      !('a' <= c <= 'z') && !('A' <= c <= 'Z') && c != '_' && !('0' <= c <= '9')
    ensures !IsIdentifier(DropNewline(s))
  {
    assert s[0] in s && s[|s| - 1] in s;
  }

  /** A field and then a path: the rest of the path is resolved in the field's value; a missing
      field or a null value absorbs it, and any other value is a type error. Malformed brackets
      in the rest are reported first. */
  lemma FieldThenPath(data: Json, field: string, rest: string)
    requires IsIdentifier(field)
    ensures Resolve(data, field + "." + rest) ==
      if !Balanced(rest) then Err(ValueError)
      else if data.Null? then Ok(Null)
      else if !data.Dict? then Err(TypeError)
      else if field in data.entries then Resolve(data.entries[field], rest)
      else Ok(Null)
  {
    IdentifierIsSegment(field);
    IdentifierIsPlain(field);
    TokensOfDotted(field, rest);
    TokensOkExactly(rest);
    if Balanced(rest) {
      WalkAppend(data, [field], Tokens(rest).value);
      WalkNull(Tokens(rest).value);
      assert [field][1..] == [];
    }
  }

  /** Where composition fails: a path into a number is a type error, but followed by a
      malformed rest it is a value error. */
  lemma MalformedRestComesFirst(a: string, b: string, n: real, q: string)
    requires IsIdentifier(a) && IsIdentifier(b) && !Balanced(q)
    ensures var data := Dict(map[a := Number(n)]); var p := a + "." + b;
      && Balanced(p) && Resolve(data, p) == Err(TypeError)
      && Then(Resolve(data, p), q) == Err(TypeError) && Resolve(data, p + "." + q) == Err(ValueError)
  {
    var data := Dict(map[a := Number(n)]);
    IdentifierIsSegment(b);
    FieldThenPath(data, a, b);
    IdentifierIsSegment(a);
    TokensOfDotted(a, b);
    TokensOkExactly(b);
    TokensOkExactly(a + "." + b);
    PathInNumber(n, b);
    WalkErrorKinds(data, a + "." + b, q);
  }

  lemma PathInNumber(n: real, b: string)
    requires IsIdentifier(b)
    ensures Resolve(Number(n), b) == Err(TypeError)
  {
    IdentifierIsSegment(b);
    IdentifierIsPlain(b);
  }

  /** The data {"a": 1} with the halves "a.b" and "[". */
  lemma CompositionFails() returns (data: Json, p: string, q: string)
    ensures data == Dict(map["a" := Number(1.0)]) && p == "a.b" && q == "["
    ensures Balanced(p) && Then(Resolve(data, p), q) == Err(TypeError) && Resolve(data, p + "." + q) == Err(ValueError)
  {
    data, p, q := Dict(map["a" := Number(1.0)]), "a.b", "[";
    assert "a" + "." + "b" == p;
    assert Depth(q[..0]) == 0 && Depth(q) == 1;
    MalformedRestComesFirst("a", "b", 1.0, q);
  }

  // ----- Filters -----

  datatype Filter = Filter(field: string, value: string)

  const FILTER_END := "]|length"

  /** A filter suffix; either kind of quote may open and close the value. */
  function PrintFilter(f: Filter, open: char, close: char): string {
    "[?" + (f.field + PrintValue(f.value, open, close))
  }

  ghost predicate FilterOk(f: Filter) {
    IsIdentifier(f.field) && forall c | c in f.value :: !IsQuote(c)
  }

  ghost predicate Spells(s: string, f: Filter, open: char, close: char) {
    FilterOk(f) && IsQuote(open) && IsQuote(close) && s == PrintFilter(f, open, close)
  }

  /** The value of `=='value']|length`. */
  function ParseValue(rest: string): Option<string> {
    if |rest| < 3 || rest[..2] != "==" || !IsQuote(rest[2]) then None
    else
      FindIs(rest[3..], IsQuote);
      match Find(rest[3..], IsQuote)
      case None => None
      case Some(j) => if rest[3..][j + 1..] == FILTER_END then Some(rest[3..][..j]) else None
  }

  /** The match of a filter suffix against its pattern. */
  function ParseFilter(s: string): Option<Filter> {
    if |s| < 2 || s[..2] != "[?" then None
    else
      FindIs(s[2..], IsEquals);
      match Find(s[2..], IsEquals)
      case None => None
      case Some(i) =>
        if !IsIdentifier(s[2..][..i]) then None
        else
          match ParseValue(s[2..][i..])
          case None => None
          case Some(value) => Some(Filter(s[2..][..i], value))
  }

  function PrintValue(value: string, open: char, close: char): string {
    "==" + ([open] + (value + ([close] + FILTER_END)))
  }

  lemma ValueParses(value: string, open: char, close: char)
    requires IsQuote(open) && IsQuote(close) && forall c | c in value :: !IsQuote(c)
    ensures ParseValue(PrintValue(value, open, close)) == Some(value)
  {
    var rest, tail := PrintValue(value, open, close), [close] + FILTER_END;
    assert rest[..2] == "==" && rest[2] == open && rest[3..] == value + tail;
    FindAfter(value, tail, IsQuote);
    assert (value + tail)[|value| + 1..] == FILTER_END;
  }

  lemma ValueParts(rest: string, value: string) returns (open: char, close: char)
    requires ParseValue(rest) == Some(value)
    ensures IsQuote(open) && IsQuote(close) && (forall c | c in value :: !IsQuote(c))
    ensures rest == PrintValue(value, open, close)
  {
    FindIs(rest[3..], IsQuote);
    var j := Find(rest[3..], IsQuote).value;
    open, close := rest[2], rest[3..][j];
    assert rest[3..] == value + ([close] + FILTER_END);
    assert rest == "==" + ([open] + rest[3..]);
  }

  lemma FilterParses(s: string, f: Filter, open: char, close: char)
    requires Spells(s, f, open, close)
    ensures ParseFilter(s) == Some(f)
  {
    var rest := PrintValue(f.value, open, close);
    ValueParses(f.value, open, close);
    assert s[..2] == "[?" && s[2..] == f.field + rest;
    assert forall c | c in f.field :: !IsEquals(c);
    FindAfter(f.field, rest, IsEquals);
  }

  lemma FilterParts(s: string, f: Filter) returns (open: char, close: char)
    requires ParseFilter(s) == Some(f)
    ensures Spells(s, f, open, close)
  {
    var tail := s[2..];
    FindIs(tail, IsEquals);
    var i := Find(tail, IsEquals).value;
    CutAt(s, 2);
    CutAt(tail, i);
    open, close := ValueParts(tail[i..], f.value);
  }

  lemma CutAt(s: string, i: nat)
    requires i <= |s|
    ensures s == s[..i] + s[i..]
  {
  }

  /** The pattern matches exactly the well-formed suffixes, and finds their parts. */
  lemma ParseFilterExactly(s: string, f: Filter)
    ensures ParseFilter(s) == Some(f) <==> exists open, close :: Spells(s, f, open, close)
  {
    if ParseFilter(s) == Some(f) {
      var open, close := FilterParts(s, f);
    }
    if open, close :| Spells(s, f, open, close) {
      FilterParses(s, f, open, close);
    }
  }

  // ----- Whole queries -----

  predicate MarkerAt(s: string, i: int) {
    0 <= i < |s| - 1 && s[i] == '[' && s[i + 1] == '?'
  }

  /** The last position of "[?". */
  function LastMarker(s: string): (r: Option<nat>)
    ensures match r
      case None => forall i :: !MarkerAt(s, i)
      case Some(i) => MarkerAt(s, i) && forall k | k > i :: !MarkerAt(s, k)
  {
    if |s| < 2 then None
    else if MarkerAt(s, |s| - 2) then Some(|s| - 2)
    else
      var r := LastMarker(s[..|s| - 1]);
      assert forall k :: MarkerAt(s, k) <==> MarkerAt(s[..|s| - 1], k);
      r
  }

  predicate Matches(item: Json, f: Filter) {
    item.Dict? && f.field in item.entries && item.entries[f.field] == Text(f.value)
  }

  function CountMatches(items: seq<Json>, f: Filter): nat {
    if items == [] then 0
    else CountMatches(items[..|items| - 1], f) + if Matches(items[|items| - 1], f) then 1 else 0
  }

  function FilterCount(container: Json, f: Filter): Result<Json, QueryError> {
    match container
    case Null => Ok(Number(0.0))
    case List(items) => Ok(Number(CountMatches(items, f) as real))
    case _ => Err(TypeError)
  }

  predicate IsDot(c: char) { c == '.' }

  /** A query: a filter with its prefix if the path has a filter marker, or a plain path. */
  function Query(data: Json, path: string): Result<Json, QueryError> {
    var p := Strip(path);
    if p == "" then Err(ValueError)
    else
      match LastMarker(p)
      case None => Resolve(data, p)
      case Some(i) =>
        match ParseFilter(p[i..])
        case None => Err(ValueError)
        case Some(f) =>
          match Resolve(data, DropTrailing(p[..i], IsDot))
          case Err(e) => Err(e)
          case Ok(container) => FilterCount(container, f)
  }

  lemma MarkerInFilter(f: Filter, open: char, close: char, i: int)
    requires FilterOk(f) && IsQuote(open) && IsQuote(close) && (forall k :: !MarkerAt(f.value, k))
    requires MarkerAt(PrintFilter(f, open, close), i)
    ensures i == 0
  {
    var s := PrintFilter(f, open, close);
    var n := |f.field|;
    assert forall c | c in f.field :: !IsOpening(c);
    assert forall k | 2 <= k < 2 + n :: s[k] == f.field[k - 2] && s[k] in f.field;
    assert s[2 + n] == '=' && s[3 + n] == '=' && s[4 + n] == open && s[5 + n + |f.value|] == close;
    assert forall k | 0 <= k < |f.value| :: s[5 + n + k] == f.value[k];
    assert s[6 + n + |f.value|..] == FILTER_END;
    assert forall k | 0 <= k < |FILTER_END| :: s[6 + n + |f.value| + k] == FILTER_END[k];
    assert !MarkerAt(f.value, i - 5 - n);
  }

  lemma MarkerOfFilter(prefix: string, f: Filter, open: char, close: char)
    requires FilterOk(f) && IsQuote(open) && IsQuote(close) && (forall k :: !MarkerAt(f.value, k))
    ensures LastMarker(prefix + PrintFilter(f, open, close)) == Some(|prefix|)
  {
    var s := PrintFilter(f, open, close);
    assert MarkerAt(s, 0);
    forall i | i > 0 ensures !MarkerAt(s, i) {
      if MarkerAt(s, i) {
        MarkerInFilter(f, open, close, i);
      }
    }
    LastMarkerOfSuffix(prefix, s);
  }

  lemma LastMarkerOfSuffix(prefix: string, s: string)
    requires MarkerAt(s, 0) && forall i | i > 0 :: !MarkerAt(s, i)
    ensures LastMarker(prefix + s) == Some(|prefix|)
  {
    var path := prefix + s;
    assert forall k | k >= |prefix| :: MarkerAt(path, k) <==> MarkerAt(s, k - |prefix|);
    assert MarkerAt(path, |prefix|);
  }

  lemma FilterIsTrimmed(prefix: string, f: Filter, open: char, close: char)
    requires prefix != "" ==> !IsSpace(prefix[0])
    ensures Strip(prefix + PrintFilter(f, open, close)) == prefix + PrintFilter(f, open, close)
  {
    var path := prefix + PrintFilter(f, open, close);
    assert path[0] == if prefix == "" then '[' else prefix[0];
    assert FILTER_END[|FILTER_END| - 1] == 'h' && path[|path| - 1] == 'h';
    StripTrims(path);
  }

  lemma QueryWithFilter(data: Json, path: string, before: string, suffix: string, f: Filter)
    requires path != "" && Strip(path) == path && LastMarker(path) == Some(|before|) && path == before + suffix
    requires ParseFilter(suffix) == Some(f)
    ensures Query(data, path) ==
      match Resolve(data, DropTrailing(before, IsDot)) { case Err(e) => Err(e) case Ok(container) => FilterCount(container, f) }
  {
    assert path[..|before|] == before && path[|before|..] == suffix;
  }

  lemma {:induction false} DropDots(prefix: string, dots: string)
    requires prefix != "" ==> prefix[|prefix| - 1] != '.'
    requires forall c | c in dots :: c == '.'
    ensures DropTrailing(prefix + dots, IsDot) == prefix
  {
    if dots == "" {
      assert prefix + dots == prefix;
    } else {
      var n := |dots| - 1;
      assert dots[n] in dots && forall c | c in dots[..n] :: c in dots;
      assert (prefix + dots)[..|prefix + dots| - 1] == prefix + dots[..n];
      DropDots(prefix, dots[..n]);
    }
  }

  /** The positions of the mappings whose field holds this text. */
  ghost function MatchingItems(items: seq<Json>, field: string, value: string): set<int> {
    set i | 0 <= i < |items| && items[i].Dict? && field in items[i].entries && items[i].entries[field] == Text(value)
  }

  lemma {:induction false} CountIsOfMatching(items: seq<Json>, f: Filter)
    ensures CountMatches(items, f) == |MatchingItems(items, f.field, f.value)|
  {
    if items != [] {
      var n := |items| - 1;
      CountIsOfMatching(items[..n], f);
      var before := MatchingItems(items[..n], f.field, f.value);
      if Matches(items[n], f) {
        assert MatchingItems(items, f.field, f.value) == before + {n};
      } else {
        assert MatchingItems(items, f.field, f.value) == before;
      }
    }
  }

  lemma FilterCounts(data: Json, prefix: string, dots: string, f: Filter, open: char, close: char)
    requires FilterOk(f) && IsQuote(open) && IsQuote(close) && (forall k :: !MarkerAt(f.value, k))
    requires prefix + dots != "" ==> !IsSpace((prefix + dots)[0])
    requires prefix != "" ==> prefix[|prefix| - 1] != '.'
    requires forall c | c in dots :: c == '.'
    ensures Query(data, prefix + dots + PrintFilter(f, open, close)) ==
      match Resolve(data, prefix)
      case Err(e) => Err(e)
      case Ok(container) =>
        if container.Null? then Ok(Number(0.0))
        else if container.List? then Ok(Number(|MatchingItems(container.items, f.field, f.value)| as real))
        else Err(TypeError)
  {
    var s := PrintFilter(f, open, close);
    FilterIsTrimmed(prefix + dots, f, open, close);
    MarkerOfFilter(prefix + dots, f, open, close);
    FilterParses(s, f, open, close);
    DropDots(prefix, dots);
    QueryWithFilter(data, prefix + dots + s, prefix + dots, s, f);
    var r := Resolve(data, prefix);
    if r.Ok? && r.value.List? {
      CountIsOfMatching(r.value.items, f);
    }
  }

  lemma FilterIsWritten(f: Filter, open: char, close: char)
    ensures PrintFilter(f, open, close) == "[?" + f.field + "==" + [open] + f.value + [close] + "]|length"
  {
  }

  /** A filter after a path, with any dots between, counts the mappings of the list there whose
      field has the value; null counts as an empty list, and anything else is a type error. */
  lemma FilterLaw(data: Json, prefix: string, dots: string, f: Filter, open: char, close: char)
    requires FilterOk(f) && IsQuote(open) && IsQuote(close) && (forall k :: !MarkerAt(f.value, k))
    requires prefix + dots != "" ==> !IsSpace((prefix + dots)[0])
    requires prefix != "" ==> prefix[|prefix| - 1] != '.'
    requires forall c | c in dots :: c == '.'
    ensures Query(data, prefix + dots + ("[?" + f.field + "==" + [open] + f.value + [close] + "]|length")) ==
      match Resolve(data, prefix)
      case Err(e) => Err(e)
      case Ok(container) =>
        if container.Null? then Ok(Number(0.0))
        else if container.List? then Ok(Number(|MatchingItems(container.items, f.field, f.value)| as real))
        else Err(TypeError)
  {
    FilterIsWritten(f, open, close);
    FilterCounts(data, prefix, dots, f, open, close);
  }

  /** What is left of a filter from inside its value. */
  function Tail(close: char): string {
    [close] + FILTER_END
  }

  lemma TailIs(w: string, close: char)
    requires IsQuote(close) && forall c | c in w :: !IsQuote(c)
    ensures forall i | 0 <= i < |w + Tail(close)| && IsQuote((w + Tail(close))[i]) :: i == |w|
    ensures forall i | MarkerAt(w + Tail(close), i) :: i < |w|
  {
    var s := w + Tail(close);
    assert forall k | 0 <= k < |w| :: s[k] == w[k] && s[k] in w;
    assert forall k | 0 <= k < |FILTER_END| :: s[|w| + 1 + k] == FILTER_END[k];
    assert forall k | 0 <= k < |FILTER_END| :: !IsQuote(FILTER_END[k]) && FILTER_END[k] != '[';
  }

  lemma SpelledQuotes(s: string, f: Filter, open: char, close: char)
    requires Spells(s, f, open, close)
    ensures |s| > 5 + |f.field| + |f.value| && IsQuote(s[4 + |f.field|]) && IsQuote(s[5 + |f.field| + |f.value|])
  {
    assert s[4 + |f.field|] == open && s[5 + |f.field| + |f.value|] == close;
  }

  lemma NoFilterInValue(w: string, close: char)
    requires IsQuote(close) && forall c | c in w :: !IsQuote(c)
    ensures ParseFilter(w + Tail(close)) == None
  {
    if ParseFilter(w + Tail(close)).Some? {
      var f := ParseFilter(w + Tail(close)).value;
      var open, close' := FilterParts(w + Tail(close), f);
      SpelledQuotes(w + Tail(close), f, open, close');
      TailIs(w, close);
      assert false;
    }
  }

  lemma MarkersMove(head: string, s: string, k: int)
    requires MarkerAt(s, k)
    ensures MarkerAt(head + s, |head| + k)
    ensures forall i | MarkerAt(head + s, i) && i >= |head| :: MarkerAt(s, i - |head|)
  {
    assert forall i | 0 <= i < |s| :: (head + s)[|head| + i] == s[i];
  }

  lemma LastMarkerInValue(head: string, value: string, close: char) returns (i: nat)
    requires IsQuote(close) && (forall c | c in value :: !IsQuote(c)) && exists k :: MarkerAt(value, k)
    ensures i < |value| && LastMarker(head + (value + Tail(close))) == Some(|head| + i)
  {
    var s := value + Tail(close);
    var k :| MarkerAt(value, k);
    assert MarkerAt(s, k);
    MarkersMove(head, s, k);
    TailIs(value, close);
    i := LastMarker(head + s).value - |head|;
  }

  /** The law needs its condition on the value: one that holds the marker "[?" itself is taken
      for the start of the filter, and the query is rejected, whatever the data. */
  lemma MarkerInValueIsRejected(data: Json, prefix: string, f: Filter, open: char, close: char)
    requires FilterOk(f) && IsQuote(open) && IsQuote(close) && exists k :: MarkerAt(f.value, k)
    requires prefix != "" ==> !IsSpace(prefix[0])
    ensures Query(data, prefix + PrintFilter(f, open, close)) == Err(ValueError)
  {
    FilterIsTrimmed(prefix, f, open, close);
    HeadAndTail(prefix, f, open, close);
    RejectedFromValue(data, HeadOf(prefix, f, open), f.value, close);
  }

  lemma RejectedFromValue(data: Json, head: string, value: string, close: char)
    requires IsQuote(close) && (forall c | c in value :: !IsQuote(c)) && exists k :: MarkerAt(value, k)
    requires Strip(head + (value + Tail(close))) == head + (value + Tail(close))
    ensures Query(data, head + (value + Tail(close))) == Err(ValueError)
  {
    var i := LastMarkerInValue(head, value, close);
    NoFilterFrom(value, close, i);
    DropInto(head, value, Tail(close), i);
    BadFilterIsRejected(data, head + (value + Tail(close)), |head| + i);
  }

  lemma NoFilterFrom(value: string, close: char, i: nat)
    requires IsQuote(close) && i <= |value| && forall c | c in value :: !IsQuote(c)
    ensures ParseFilter(value[i..] + Tail(close)) == None
  {
    NoFilterInValue(value[i..], close);
  }

  lemma BadFilterIsRejected(data: Json, path: string, i: nat)
    requires Strip(path) == path && LastMarker(path) == Some(i) && ParseFilter(path[i..]) == None
    ensures Query(data, path) == Err(ValueError)
  {
  }

  /** A filter query up to its value. */
  function HeadOf(prefix: string, f: Filter, open: char): string {
    prefix + ("[?" + f.field + "==" + [open])
  }

  lemma HeadAndTail(prefix: string, f: Filter, open: char, close: char)
    ensures prefix + PrintFilter(f, open, close) == HeadOf(prefix, f, open) + (f.value + Tail(close))
  {
  }

  lemma DropInto(a: string, b: string, c: string, i: nat)
    requires i <= |b|
    ensures (a + (b + c))[|a| + i..] == b[i..] + c
  {
  }

  /** What the other queries are: nothing but white space and a marker without a well-formed
      filter are errors, and a path without a marker is resolved after stripping. */
  lemma QueryWithoutFilter(data: Json, path: string)
    ensures AllSpace(path) ==> Query(data, path) == Err(ValueError)
    ensures (forall i :: !MarkerAt(Strip(path), i)) && !AllSpace(path) ==> Query(data, path) == Resolve(data, Strip(path))
    ensures forall i | MarkerAt(Strip(path), i) && (forall k | k > i :: !MarkerAt(Strip(path), k)) ::
      (forall f, open, close :: !Spells(Strip(path)[i..], f, open, close)) ==> Query(data, path) == Err(ValueError)
  {
    var p := Strip(path);
    var before, after := StripIs(path);
    if AllSpace(path) {
      StripExactly(path, path, "", "");
    }
    forall i | MarkerAt(p, i) && (forall k | k > i :: !MarkerAt(p, k))
        && (forall f, open, close :: !Spells(p[i..], f, open, close))
      ensures Query(data, path) == Err(ValueError)
    {
      if ParseFilter(p[i..]).Some? {
        ParseFilterExactly(p[i..], ParseFilter(p[i..]).value);
      }
    }
  }

  method RunQuery(data: Json, path: string) returns (r: Result<Json, QueryError>)
    ensures r == Query(data, path)
  {
    var p := Strip(path);
    if p == "" {
      return Err(ValueError);
    }
    var marker := LastMarker(p);
    if marker.None? {
      r := ResolvePrefix(data, p);
      return;
    }
    var prefix, suffix := DropTrailing(p[..marker.value], IsDot), p[marker.value..];
    var filter := ParseFilter(suffix);
    if filter.None? {
      return Err(ValueError);
    }
    var container := ResolvePrefix(data, prefix);
    if container.Err? {
      return container;
    }
    if container.value.Null? {
      return Ok(Number(0.0));
    }
    if !container.value.List? {
      return Err(TypeError);
    }
    var items := container.value.items;
    var count := 0;
    for i := 0 to |items|
      invariant count == CountMatches(items[..i], filter.value)
    {
      assert items[..i + 1][..i] == items[..i];
      if Matches(items[i], filter.value) {
        count := count + 1;
      }
    }
    assert items[..|items|] == items;
    return Ok(Number(count as real));
  }
}
