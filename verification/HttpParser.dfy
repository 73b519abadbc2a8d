/**
  The incremental request parser of muduo-vip/muduo/net/http/HttpContext.cc, with the
  request of HttpRequest.h.  A request arrives in pieces; parseRequest() is called after
  each, until it fails or the request is complete.
 */
module HttpParser {
  import opened Options
  import opened Sequences

  datatype Method = Invalid | Get | Post | Head | Put | Delete
  datatype Version = Unknown | Http10 | Http11
  datatype Request = Request(verb: Method, version: Version, path: string, query: string, headers: map<string, string>)
  datatype State = ExpectRequestLine | ExpectHeaders | ExpectBody | GotAll
  datatype Context = Context(state: State, request: Request)

  const NO_REQUEST := Request(Invalid, Unknown, "", "", map[])
  const INITIAL := Context(ExpectRequestLine, NO_REQUEST)

  // ----- text -----

  /** std::find(): the first occurrence, or the end. */
  function Find(s: string, c: char): (i: nat)
    ensures i <= |s| && c !in s[..i] && (i < |s| ==> s[i] == c)
  {
    if s == [] then 0 else if s[0] == c then 0 else
      var i := Find(s[1..], c) + 1;
      assert s[..i] == [s[0]] + s[1..][..i - 1];
      i
  }

  predicate LineEnds(s: string, i: int) {
    0 <= i && i + 2 <= |s| && s[i] == '\r' && s[i + 1] == '\n'
  }

  /** findCRLF(): the first line end, if there is one. */
  function FindCRLF(s: string): (r: Option<nat>)
    ensures r.Some? ==> LineEnds(s, r.value) && forall j :: 0 <= j < r.value ==> !LineEnds(s, j)
    ensures r.None? ==> forall j :: 0 <= j < |s| ==> !LineEnds(s, j)
  {
    FindFrom(s, 0)
  }

  function FindFrom(s: string, i: nat): (r: Option<nat>)
    requires i <= |s|
    ensures r.Some? ==> i <= r.value && LineEnds(s, r.value) && forall j :: i <= j < r.value ==> !LineEnds(s, j)
    ensures r.None? ==> forall j :: i <= j < |s| ==> !LineEnds(s, j)
    decreases |s| - i
  {
    if LineEnds(s, i) then Some(i) else if i < |s| then FindFrom(s, i + 1) else None
  }

  /** More text never moves a line end that was there. */
  lemma FindExtends(a: string, b: string)
    requires FindCRLF(a).Some?
    ensures FindCRLF(a + b) == FindCRLF(a)
  {
    var i := FindCRLF(a).value;
    assert LineEnds(a + b, i);
    assert forall j :: 0 <= j < i ==> LineEnds(a + b, j) == LineEnds(a, j);
  }

  // ----- one line -----

  function MethodOf(m: string): Method {
    if m == "GET" then Get else if m == "POST" then Post else if m == "HEAD" then Head
    else if m == "PUT" then Put else if m == "DELETE" then Delete else Invalid
  }

  function VersionOf(v: string): Version {
    if |v| == 8 && v[..7] == "HTTP/1." then
      if v[7] == '1' then Http11 else if v[7] == '0' then Http10 else Unknown
    else Unknown
  }

  function WithTarget(r: Request, target: string): Request {
    var q := Find(target, '?');
    if q < |target| then r.(path := target[..q], query := target[q..]) else r.(path := target)
  }

  /** A request line: what it says, and whether it is one. */
  function RequestLine(r: Request, line: string): (bool, Request) {
    var space := Find(line, ' ');
    if space == |line| then (false, r) else
      var r1 := r.(verb := MethodOf(line[..space]));
      if r1.verb.Invalid? then (false, r1) else
        var rest := line[space + 1..];
        var space2 := Find(rest, ' ');
        if space2 == |rest| then (false, r1) else
          var r2 := WithTarget(r1, rest[..space2]);
          var version := VersionOf(rest[space2 + 1..]);
          if version.Unknown? then (false, r2) else (true, r2.(version := version))
  }

  predicate IsSpace(c: char) {
    c == ' ' || c == '\t' || c == '\n' || c == '\r' || c as int == 11 || c as int == 12
  }

  function TrimLeft(s: string): string {
    if s != [] && IsSpace(s[0]) then TrimLeft(s[1..]) else s
  }

  function TrimRight(s: string): string {
    if s != [] && IsSpace(s[|s| - 1]) then TrimRight(s[..|s| - 1]) else s
  }

  function Trim(s: string): string {
    TrimRight(TrimLeft(s))
  }

  function WithHeader(r: Request, line: string): Request
    requires Find(line, ':') < |line|
  {
    var colon := Find(line, ':');
    r.(headers := r.headers[line[..colon] := Trim(line[colon + 1..])])
  }

  // ----- the whole text -----

  datatype Parsed = Parsed(ok: bool, context: Context, rest: string)

  /** What one call makes of everything that has arrived. */
  function Parse(c: Context, text: string): Parsed
    decreases |text|
  {
    var crlf := FindCRLF(text);
    if crlf.None? then Parsed(true, c, text) else
      var line, after := text[..crlf.value], text[crlf.value + 2..];
      match c.state
      case ExpectRequestLine =>
        var (ok, request) := RequestLine(c.request, line);
        if ok then Parse(Context(ExpectHeaders, request), after) else Parsed(false, c.(request := request), text)
      case ExpectHeaders =>
        if Find(line, ':') < |line| then Parse(c.(request := WithHeader(c.request, line)), after)
        else Parsed(true, c.(state := GotAll), after)
      case _ => Parsed(true, c, text)
  }

  predicate Ended(p: Parsed) {
    !p.ok || p.context.state.GotAll?
  }

  /** Calling again with more text goes on exactly where one call on all of it would be. */
  lemma {:induction false} ParseResumes(c: Context, a: string, b: string)
    requires c.state.ExpectRequestLine? || c.state.ExpectHeaders?
    ensures var p := Parse(c, a);
            Parse(c, a + b) == if Ended(p) then p.(rest := p.rest + b) else Parse(p.context, p.rest + b)
    ensures var p := Parse(c, a);
            Ended(p) || p.context.state.ExpectRequestLine? || p.context.state.ExpectHeaders?
    decreases |a|
  {
    var crlf := FindCRLF(a);
    if crlf.Some? {
      FindExtends(a, b);
      var i := crlf.value;
      assert (a + b)[..i] == a[..i];
      assert (a + b)[i + 2..] == a[i + 2..] + b;
      var line := a[..i];
      if c.state.ExpectRequestLine? {
        var (ok, request) := RequestLine(c.request, line);
        if ok {
          ParseResumes(Context(ExpectHeaders, request), a[i + 2..], b);
        }
      } else if Find(line, ':') < |line| {
        ParseResumes(c.(request := WithHeader(c.request, line)), a[i + 2..], b);
      }
    }
  }

  // ----- trimming -----

  predicate Blank(s: string) {
    forall i :: 0 <= i < |s| ==> IsSpace(s[i])
  }

  predicate Trimmed(s: string) {
    s == [] || (!IsSpace(s[0]) && !IsSpace(s[|s| - 1]))
  }

  lemma {:induction false} TrimLeftCuts(s: string) returns (i: nat)
    ensures i <= |s| && Blank(s[..i]) && TrimLeft(s) == s[i..] && (i < |s| ==> !IsSpace(s[i]))
  {
    if s != [] && IsSpace(s[0]) {
      var j := TrimLeftCuts(s[1..]);
      i := j + 1;
      assert s[..i] == [s[0]] + s[1..][..j];
    } else {
      i := 0;
    }
  }

  lemma {:induction false} TrimRightCuts(s: string) returns (j: nat)
    ensures j <= |s| && Blank(s[j..]) && TrimRight(s) == s[..j] && (j > 0 ==> !IsSpace(s[j - 1]))
  {
    if s != [] && IsSpace(s[|s| - 1]) {
      j := TrimRightCuts(s[..|s| - 1]);
      assert s[j..] == s[..|s| - 1][j..] + [s[|s| - 1]];
      assert s[..|s| - 1][..j] == s[..j];
    } else {
      j := |s|;
    }
  }

  /** Trimming cuts white space off both ends, and all of it. */
  lemma TrimCuts(s: string) returns (i: nat, j: nat)
    ensures i <= j <= |s| && Trim(s) == s[i..j] && Blank(s[..i]) && Blank(s[j..])
    ensures Trimmed(Trim(s))
  {
    i := TrimLeftCuts(s);
    var k := TrimRightCuts(s[i..]);
    j := i + k;
    assert s[i..][..k] == s[i..j] && s[i..][k..] == s[j..];
  }

  // ----- a request, written out -----

  datatype Field = Field(name: string, value: string)

  function VerbText(verb: Method): string {
    match verb
    case Invalid => ""
    case Get => "GET"
    case Post => "POST"
    case Head => "HEAD"
    case Put => "PUT"
    case Delete => "DELETE"
  }

  function VersionText(version: Version): string {
    "HTTP/1." + if version.Http10? then "0" else "1"
  }

  function FieldLine(f: Field): string {
    f.name + ":" + " " + f.value
  }

  function FieldLines(fields: seq<Field>): string {
    if fields == [] then "" else FieldLine(fields[0]) + "\r\n" + FieldLines(fields[1..])
  }

  /** The last of several fields with one name is the one that stays. */
  function Headers(headers: map<string, string>, fields: seq<Field>): map<string, string>
    decreases |fields|
  {
    if fields == [] then headers else Headers(headers[fields[0].name := fields[0].value], fields[1..])
  }

  predicate Plain(s: string) {
    '\r' !in s
  }

  predicate WellFormedField(f: Field) {
    Plain(f.name) && Plain(f.value) && ':' !in f.name && Trimmed(f.value)
  }

  predicate WellFormedTarget(path: string, query: string) {
    && Plain(path) && ' ' !in path && '?' !in path
    && Plain(query) && ' ' !in query && (query == "" || query[0] == '?')
  }

  function LineOf(verb: Method, path: string, query: string, version: Version): string {
    VerbText(verb) + " " + (path + query + " " + VersionText(version))
  }

  lemma FindAt(a: string, c: char, b: string)
    requires c !in a
    ensures Find(a + [c] + b, c) == |a|
  {
    var s := a + [c] + b;
    var i := Find(s, c);
    assert s[|a|] == c;
    assert s[..|a|] == a;
  }

  lemma FindNothing(s: string, c: char)
    requires c !in s
    ensures Find(s, c) == |s|
  {
  }

  lemma FirstLine(line: string, after: string)
    requires Plain(line)
    ensures var text := line + "\r\n" + after;
            FindCRLF(text) == Some(|line|) && text[..|line|] == line && text[|line| + 2..] == after
  {
    var text := line + "\r\n" + after;
    assert LineEnds(text, |line|);
    assert forall j :: 0 <= j < |line| ==> text[j] == line[j];
  }

  lemma TargetReads(r: Request, path: string, query: string)
    requires WellFormedTarget(path, query) && r.query == ""
    ensures WithTarget(r, path + query) == r.(path := path, query := query)
  {
    if query == "" {
      assert path + query == path;
      FindNothing(path, '?');
    } else {
      assert path + query == path + ['?'] + query[1..];
      FindAt(path, '?', query[1..]);
    }
  }

  lemma VersionReads(version: Version)
    requires !version.Unknown?
    ensures VersionOf(VersionText(version)) == version
  {
    assert VersionText(version)[..7] == "HTTP/1.";
  }

  lemma VerbReads(verb: Method)
    requires !verb.Invalid?
    ensures MethodOf(VerbText(verb)) == verb && ' ' !in VerbText(verb) && Plain(VerbText(verb))
  {
  }

  /** A line of three words. */
  lemma WordsRead(r: Request, m: string, target: string, v: string, rest: string, line: string)
    requires ' ' !in m && ' ' !in target
    requires rest == target + [' '] + v && line == m + [' '] + rest
    requires !MethodOf(m).Invalid? && !VersionOf(v).Unknown?
    ensures RequestLine(r, line) == (true, WithTarget(r.(verb := MethodOf(m)), target).(version := VersionOf(v)))
  {
    FindAt(m, ' ', rest);
    assert line[..|m|] == m && line[|m| + 1..] == rest;
    FindAt(target, ' ', v);
    assert rest[..|target|] == target && rest[|target| + 1..] == v;
  }

  lemma TextReads(verb: Method, version: Version, m: string, v: string, path: string, query: string)
    requires ' ' !in m && MethodOf(m) == verb && !verb.Invalid? && VersionOf(v) == version && !version.Unknown?
    requires WellFormedTarget(path, query)
    ensures RequestLine(NO_REQUEST, m + [' '] + (path + query + [' '] + v))
         == (true, Request(verb, version, path, query, map[]))
  {
    var target := path + query;
    var rest := target + [' '] + v;
    WordsRead(NO_REQUEST, m, target, v, rest, m + [' '] + rest);
    TargetReads(NO_REQUEST.(verb := verb), path, query);
  }

  /** A request line written out is read back. */
  lemma LineReads(verb: Method, path: string, query: string, version: Version)
    requires !verb.Invalid? && !version.Unknown? && WellFormedTarget(path, query)
    ensures RequestLine(NO_REQUEST, LineOf(verb, path, query, version))
         == (true, Request(verb, version, path, query, map[]))
  {
    VerbReads(verb);
    VersionReads(version);
    TextReads(verb, version, VerbText(verb), VersionText(version), path, query);
  }

  lemma VersionText8(v: string)
    requires !VersionOf(v).Unknown?
    ensures v == VersionText(VersionOf(v))
  {
    assert v == v[..7] + [v[7]];
  }

  lemma VerbText5(m: string)
    requires !MethodOf(m).Invalid?
    ensures m == VerbText(MethodOf(m))
  {
  }

  /** A line is `verb`, a target without spaces and `version`, each after one space. */
  predicate IsLine(line: string, verb: Method, target: string, version: Version) {
    && !verb.Invalid? && !version.Unknown? && ' ' !in target
    && line == VerbText(verb) + " " + (target + " " + VersionText(version))
  }

  lemma LineCut(line: string, c: char)
    requires Find(line, c) < |line|
    ensures line == line[..Find(line, c)] + [c] + line[Find(line, c) + 1..]
  {
  }

  lemma AcceptedIsLine(r: Request, line: string) returns (verb: Method, target: string, version: Version)
    requires RequestLine(r, line).0
    ensures IsLine(line, verb, target, version)
  {
    var m, rest := line[..Find(line, ' ')], line[Find(line, ' ') + 1..];
    LineCut(line, ' ');
    LineCut(rest, ' ');
    var v := rest[Find(rest, ' ') + 1..];
    VerbText5(m);
    VersionText8(v);
    verb, target, version := MethodOf(m), rest[..Find(rest, ' ')], VersionOf(v);
  }

  lemma LineIsAccepted(r: Request, line: string, verb: Method, target: string, version: Version)
    requires IsLine(line, verb, target, version)
    ensures RequestLine(r, line).0
  {
    VerbReads(verb);
    VersionReads(version);
    WordsRead(r, VerbText(verb), target, VersionText(version), target + [' '] + VersionText(version), line);
  }

  /** Exactly the lines of this form are accepted. */
  lemma LineAccepted(r: Request, line: string)
    ensures RequestLine(r, line).0 <==> exists verb, target, version :: IsLine(line, verb, target, version)
  {
    if RequestLine(r, line).0 {
      var verb, target, version := AcceptedIsLine(r, line);
    }
    forall verb, target, version | IsLine(line, verb, target, version)
      ensures RequestLine(r, line).0
    {
      LineIsAccepted(r, line, verb, target, version);
    }
  }

  lemma LinePlain(verb: Method, path: string, query: string, version: Version)
    requires WellFormedTarget(path, query)
    ensures Plain(LineOf(verb, path, query, version))
  {
  }

  lemma {:induction false} TrimmedStays(s: string)
    requires Trimmed(s)
    ensures Trim([' '] + s) == s
  {
    assert ([' '] + s)[1..] == s;
    assert TrimLeft([' '] + s) == TrimLeft(s);
  }

  /** And so is a header field. */
  lemma FieldReads(r: Request, f: Field)
    requires WellFormedField(f)
    ensures Plain(FieldLine(f)) && Find(FieldLine(f), ':') < |FieldLine(f)|
    ensures WithHeader(r, FieldLine(f)) == r.(headers := r.headers[f.name := f.value])
  {
    var value := [' '] + f.value;
    FindAt(f.name, ':', value);
    var line := f.name + [':'] + value;
    assert line == FieldLine(f);
    assert line[..|f.name|] == f.name && line[|f.name| + 1..] == value;
    TrimmedStays(f.value);
  }

  lemma FirstField(fields: seq<Field>, body: string)
    requires fields != []
    ensures FieldLines(fields) + "\r\n" + body
         == FieldLine(fields[0]) + "\r\n" + (FieldLines(fields[1..]) + "\r\n" + body)
  {
  }

  lemma EmptyLineReads(r: Request, body: string)
    ensures Parse(Context(ExpectHeaders, r), "" + "\r\n" + body) == Parsed(true, Context(GotAll, r), body)
  {
    FirstLine("", body);
  }

  lemma FieldLineReads(r: Request, f: Field, rest: string)
    requires WellFormedField(f)
    ensures Parse(Context(ExpectHeaders, r), FieldLine(f) + "\r\n" + rest)
         == Parse(Context(ExpectHeaders, r.(headers := r.headers[f.name := f.value])), rest)
  {
    FieldReads(r, f);
    FirstLine(FieldLine(f), rest);
  }

  lemma {:induction false} FieldsRead(r: Request, fields: seq<Field>, body: string)
    requires forall i :: 0 <= i < |fields| ==> WellFormedField(fields[i])
    ensures Parse(Context(ExpectHeaders, r), FieldLines(fields) + "\r\n" + body)
         == Parsed(true, Context(GotAll, r.(headers := Headers(r.headers, fields))), body)
    decreases |fields|
  {
    if fields == [] {
      EmptyLineReads(r, body);
    } else {
      var f := fields[0];
      FirstField(fields, body);
      FieldLineReads(r, f, FieldLines(fields[1..]) + "\r\n" + body);
      FieldsRead(r.(headers := r.headers[f.name := f.value]), fields[1..], body);
    }
  }

  /** Every well-formed request, written out and followed by anything, is read back with that left over. */
  lemma RequestReads(verb: Method, path: string, query: string, version: Version, fields: seq<Field>, body: string)
    requires !verb.Invalid? && !version.Unknown? && WellFormedTarget(path, query)
    requires forall i :: 0 <= i < |fields| ==> WellFormedField(fields[i])
    ensures Parse(INITIAL, LineOf(verb, path, query, version) + "\r\n" + (FieldLines(fields) + "\r\n" + body))
         == Parsed(true, Context(GotAll, Request(verb, version, path, query, Headers(map[], fields))), body)
  {
    LineReads(verb, path, query, version);
    LinePlain(verb, path, query, version);
    FirstLine(LineOf(verb, path, query, version), FieldLines(fields) + "\r\n" + body);
    FieldsRead(Request(verb, version, path, query, map[]), fields, body);
  }

  // ----- the objects -----

  /** The receive buffer. */
  class InputText {
    var data: string

    constructor ()
      ensures data == ""
    {
      data := "";
    }

    method Append(chunk: string)
      modifies this
      ensures data == old(data) + chunk
    {
      data := data + chunk;
    }

    method RetrieveUntil(n: nat)
      requires n <= |data|
      modifies this
      ensures data == old(data)[n..]
    {
      data := data[n..];
    }
  }

  class HttpContext {
    var state: State
    var request: Request

    ghost function Value(): Context
      reads this
    {
      Context(state, request)
    }

    /** A call may follow: the request is not complete, and setMethod() finds no method set. */
    ghost predicate Expecting()
      reads this
    {
      (state.ExpectRequestLine? && request.verb.Invalid?) || state.ExpectHeaders?
    }

    constructor ()
      ensures Value() == INITIAL && Expecting()
    {
      state, request := ExpectRequestLine, NO_REQUEST;
    }

    method ProcessRequestLine(line: string) returns (succeed: bool)
      requires request.verb.Invalid?
      modifies `request
      ensures (succeed, request) == RequestLine(old(request), line)
    {
      succeed := false;
      var space := Find(line, ' ');
      if space != |line| {
        request := request.(verb := MethodOf(line[..space]));
        if !request.verb.Invalid? {
          var start := space + 1;
          space := start + Find(line[start..], ' ');
          if space != |line| {
            SetTarget(line[start..][..space - start]);
            assert line[start..][space - start + 1..] == line[space + 1..];
            start := space + 1;
            succeed := SetVersion(line[start..]);
          }
        }
      }
    }

    method SetTarget(target: string)
      modifies `request
      ensures request == WithTarget(old(request), target)
    {
      var question := Find(target, '?');
      if question != |target| {
        request := request.(path := target[..question]);
        request := request.(query := target[question..]);
      } else {
        request := request.(path := target);
      }
    }

    method SetVersion(v: string) returns (succeed: bool)
      modifies `request
      ensures succeed == !VersionOf(v).Unknown?
      ensures request == if succeed then old(request).(version := VersionOf(v)) else old(request)
    {
      succeed := |v| == 8 && v[..7] == "HTTP/1.";
      if succeed {
        if v[7] == '1' {
          request := request.(version := Http11);
        } else if v[7] == '0' {
          request := request.(version := Http10);
        } else {
          succeed := false;
        }
      }
    }

    method AddHeader(line: string, colon: nat)
      requires colon == Find(line, ':') < |line|
      modifies `request
      ensures request == WithHeader(old(request), line)
    {
      var field := line[..colon];
      var at := colon + 1;
      while at < |line| && IsSpace(line[at])
        invariant colon < at <= |line| && TrimLeft(line[at..]) == TrimLeft(line[colon + 1..])
      {
        assert line[at..][1..] == line[at + 1..];
        at := at + 1;
      }
      var value := line[at..];
      while value != [] && IsSpace(value[|value| - 1])
        invariant TrimRight(value) == Trim(line[colon + 1..])
      {
        value := value[..|value| - 1];
      }
      request := request.(headers := request.headers[field := value]);
    }

    /** One call, on whatever the buffer holds. */
    method ParseRequest(buf: InputText) returns (ok: bool)
      requires Expecting()
      modifies this, buf
      ensures Parsed(ok, Value(), buf.data) == Parse(old(Value()), old(buf.data))
      ensures ok && !state.GotAll? ==> Expecting()
    {
      ok := true;
      var hasMore := true;
      while hasMore
        invariant hasMore ==> ok && Parse(Value(), buf.data) == Parse(old(Value()), old(buf.data))
        invariant !hasMore ==> Parsed(ok, Value(), buf.data) == Parse(old(Value()), old(buf.data))
        invariant ok && !state.GotAll? ==> Expecting()
        invariant hasMore ==> !state.GotAll?
        decreases |buf.data|, hasMore
      {
        var crlf := FindCRLF(buf.data);
        if state.ExpectRequestLine? {
          if crlf.Some? {
            ok := ProcessRequestLine(buf.data[..crlf.value]);
            if ok {
              buf.RetrieveUntil(crlf.value + 2);
              state := ExpectHeaders;
            } else {
              hasMore := false;
            }
          } else {
            hasMore := false;
          }
        } else {
          if crlf.Some? {
            var line := buf.data[..crlf.value];
            var colon := Find(line, ':');
            if colon != |line| {
              AddHeader(line, colon);
            } else {
              state := GotAll;
              hasMore := false;
            }
            buf.RetrieveUntil(crlf.value + 2);
          } else {
            hasMore := false;
          }
        }
      }
    }
  }

  /**
    Every text, however it arrives: calling after each piece, and stopping on failure or
    once complete, gives what one call on the whole text gives.
   */
  method Receive(context: HttpContext, buf: InputText, chunks: seq<string>) returns (ok: bool, read: nat)
    requires context.Value() == INITIAL && buf.data == ""
    modifies context, buf
    ensures read <= |chunks|
    ensures var p := Parse(INITIAL, Concat(chunks));
            && ok == p.ok && context.Value() == p.context
            && (if Ended(p) then exists unread ::
                  Concat(chunks) == Concat(chunks[..read]) + unread && p.rest == buf.data + unread
                else read == |chunks| && p.rest == buf.data)
  {
    ok, read := true, 0;
    assert Parse(INITIAL, "") == Parsed(true, INITIAL, "");
    while read < |chunks| && ok && !context.state.GotAll?
      invariant 0 <= read <= |chunks|
      invariant Parsed(ok, context.Value(), buf.data) == Parse(INITIAL, Concat(chunks[..read]))
      invariant ok && !context.state.GotAll? ==> context.Expecting()
    {
      ConcatNext(chunks, read);
      ParseResumes(INITIAL, Concat(chunks[..read]), chunks[read]);
      buf.Append(chunks[read]);
      ok := context.ParseRequest(buf);
      read := read + 1;
    }
    var unread := ConcatPrefix(chunks, read);
    ParseResumes(INITIAL, Concat(chunks[..read]), unread);
    assert read == |chunks| ==> chunks[..read] == chunks;
  }
}
