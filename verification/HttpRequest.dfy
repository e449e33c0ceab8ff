/** The request parser as the object the server keeps per connection and updates with every read. */
module HttpRequests {
  import opened Http
  import opened Text
  import opened UriCoding
  import opened RequestParser

  class HttpRequest {
    var buffer: string
    var body: string
    var state: ParseState
    var method_: string
    var uri: string
    var query: string
    var httpV: string
    var headers: map<string, string>
    var contentLength: nat
    var contentType: string
    var errorCode: int
    var chunked: bool
    var mpFlag: bool
    /** An exception has left parseRequest. */
    var threw: bool
    /** isListen, isDomainname or isIPv6Host accepts the host. */
    const hostOk: string -> bool

    ghost function HeadVal(): Head
      reads this
    {
      Head(state, method_, uri, query, httpV, headers, contentLength, contentType, errorCode, chunked, mpFlag, threw)
    }

    ghost function Val(): Parser
      reads this
    {
      Parser(HeadVal(), buffer, body)
    }

    constructor (hostOk: string -> bool)
      ensures Val() == FRESH_PARSER && this.hostOk == hostOk
    {
      this.hostOk := hostOk;
      buffer, body, state := "", "", REQUEST_LINE;
      method_, uri, query, httpV, headers := "", "", "", "", map[];
      contentLength, contentType, errorCode, chunked, mpFlag, threw := 0, "", 0, false, false, false;
    }

    /** Forget the request; the unconsumed bytes, the content type and the multipart flag stay. */
    method Clear()
      modifies this
      ensures Val()
              == old(Parser(FreshHead().(contentType := contentType, mpFlag := mpFlag, threw := threw), buffer, ""))
    {
      method_, uri, query, httpV, headers, body := "", "", "", "", map[], "";
      contentLength, errorCode, chunked, state := 0, 0, false, REQUEST_LINE;
    }

    method SetError(code: int)
      modifies `state, `errorCode
      ensures HeadVal() == Fail(old(HeadVal()), code)
    {
      errorCode := code;
      state := ERROR;
    }

    method ParseTarget(target: string) returns (ok: bool)
      requires state != ERROR
      modifies `uri, `query, `state, `errorCode
      ensures HeadVal() == RequestParser.ParseTarget(old(HeadVal()), target) && ok == (state != ERROR)
    {
      var mark := Find(target, "?", 0);
      var path, rawQuery := target, "";
      if mark.Some? {
        rawQuery := target[mark.value + 1..];
        path := target[..mark.value];
      }
      var accepted := ValidateEncodedURI(path);
      if !accepted {
        SetError(BAD_REQUEST);
        return false;
      }
      var decoded := DecodeURIBytes(path);
      if decoded == None {
        SetError(BAD_REQUEST);
        return false;
      }
      uri := decoded.value;
      if rawQuery == "" {
        query := "";
      } else {
        var beyond: char := *;
        var q := DecodeQueryBytes(rawQuery, beyond);
        if q == None {
          SetError(BAD_REQUEST);
          return false;
        }
        query := q.value;
      }
      return true;
    }

    method SkipBlankLines(line: string) returns (cont: string)
      ensures cont == DropBlankLines(line)
    {
      cont := line;
      while |cont| >= 2 && cont[0] == '\r' && cont[1] == '\n'
        invariant DropBlankLines(cont) == DropBlankLines(line)
      {
        cont := cont[2..];
      }
    }

    method ParseRest(cont: string, from: nat) returns (ok: bool)
      requires state != ERROR && from <= |cont|
      modifies `uri, `query, `httpV, `state, `errorCode
      ensures HeadVal() == RequestParser.ParseRest(old(HeadVal()), cont, from) && ok == (state != ERROR)
    {
      hide RequestParser.ParseTarget, Find;
      var sp := Find(cont, " ", from);
      if sp == None {
        SetError(BAD_REQUEST);
        return false;
      }
      var target := cont[from..sp.value];
      if |target| > MAX_URI {
        SetError(URI_TOO_LONG);
        return false;
      }
      if |cont| > MAX_REQUEST_LINE {
        SetError(BAD_REQUEST);
        return false;
      }
      ok := ParseTarget(target);
      if !ok {
        return false;
      }
      httpV := cont[sp.value + 1..];
      if !IsHttpVersion(httpV) {
        SetError(VERSION_NOT_SUPPORTED);
        return false;
      }
      return true;
    }

    method ParseSL(line: string) returns (ok: bool)
      requires state != ERROR
      modifies `method_, `uri, `query, `httpV, `state, `errorCode
      ensures HeadVal() == RequestParser.ParseSL(old(HeadVal()), line) && ok == (state != ERROR)
    {
      hide RequestParser.ParseRest, Find, DropBlankLines;
      var cont := SkipBlankLines(line);
      var sp := Find(cont, " ", 0);
      if sp == None {
        SetError(BAD_REQUEST);
        return false;
      }
      method_ := cont[..sp.value];
      if !IsMethod(method_) {
        SetError(NOT_IMPLEMENTED);
        return false;
      }
      ok := ParseRest(cont, sp.value + 1);
    }

    method CheckTransferEnc() returns (ok: bool)
      requires state != ERROR
      modifies `chunked, `state, `errorCode
      ensures HeadVal() == RequestParser.CheckTransferEnc(old(HeadVal())) && ok == (state != ERROR)
    {
      var te := Get(headers, "transfer-encoding");
      if te != "" {
        if httpV == "HTTP/1.0" {
          SetError(NOT_IMPLEMENTED);
          return false;
        }
        if Find(ToLower(te), "chunked", 0) == None {
          SetError(BAD_REQUEST);
          return false;
        }
        chunked := true;
      }
      return true;
    }

    method CheckHost() returns (ok: bool)
      requires state != ERROR
      modifies `headers, `state, `errorCode
      ensures HeadVal() == RequestParser.CheckHost(old(HeadVal()), hostOk) && ok == (state != ERROR)
    {
      var host := Get(headers, "host");
      if httpV == "HTTP/1.1" && host == "" {
        SetError(BAD_REQUEST);
        return false;
      }
      if host != "" {
        var colon := Find(host, ":", 0);
        if colon.Some? {
          host := host[..colon.value];
          headers := headers["host" := host];
        }
        if !hostOk(host) {
          SetError(BAD_REQUEST);
          return false;
        }
      }
      return true;
    }

    /** The checks run inside a try block whose handler turns every failure, a 413 included, into 400. */
    method CheckContLen() returns (ok: bool)
      requires state != ERROR
      modifies `contentLength, `state, `errorCode
      ensures HeadVal() == RequestParser.CheckContLen(old(HeadVal())) && ok == (state != ERROR)
    {
      var cl := Get(headers, "content-length");
      if cl == "" {
        return true;
      }
      ok := true;
      if !IsNumber(cl) {
        SetError(BAD_REQUEST);
        ok := false;
      } else if DecValue(cl) >= TWO_64 / 2 {
        ok := false;
      } else if DecValue(cl) > MAX_CONT_LEN {
        SetError(PAYLOAD_TOO_LARGE);
        ok := false;
      } else {
        contentLength := DecValue(cl);
      }
      if !ok {
        SetError(BAD_REQUEST);
      }
    }

    method ParseLines(cont: string) returns (ok: bool)
      requires state != ERROR
      modifies `headers, `state, `errorCode
      ensures HeadVal() == RequestParser.ParseLines(old(HeadVal()), cont, 0) && ok == (state != ERROR)
    {
      hide NextLine, ValidHeader, IsRepeated;
      var i := 0;
      while i < |cont|
        invariant i <= |cont| && state != ERROR
        invariant HeadVal() == old(HeadVal()).(headers := headers)
        invariant RequestParser.ParseLines(HeadVal(), cont, i) == RequestParser.ParseLines(old(HeadVal()), cont, 0)
      {
        var line := NextLine(cont, i);
        if line.BadLine? || IsRepeated(headers, line.key) || |line.key| + |line.value| > MAX_HEADER_LINE {
          SetError(BAD_REQUEST);
          return false;
        }
        headers := Insert(headers, line.key, line.value);
        if !ValidHeader(line.key, line.value) {
          SetError(BAD_REQUEST);
          return false;
        }
        i := line.next;
      }
      return true;
    }

    method ParseHeader(cont: string) returns (ok: bool)
      requires state != ERROR
      modifies `headers, `contentType, `chunked, `contentLength, `state, `errorCode
      ensures HeadVal() == RequestParser.ParseHeader(old(HeadVal()), cont, hostOk) && ok == (state != ERROR)
    {
      hide RequestParser.ParseLines, RequestParser.CheckTransferEnc, RequestParser.CheckHost;
      hide RequestParser.CheckContLen;
      ok := ParseLines(cont);
      if !ok {
        return false;
      }
      if Get(headers, "content-length") != "" && Get(headers, "transfer-encoding") != "" {
        SetError(BAD_REQUEST);
        return false;
      }
      if Get(headers, "content-type") != "" {
        contentType := Get(headers, "content-type");
      }
      ok := CheckTransferEnc();
      if !ok {
        return false;
      }
      ok := CheckHost();
      if !ok {
        return false;
      }
      ok := CheckContLen();
    }

    /** Take the request line off the buffer, if it is complete. */
    method RequestLineStep() returns (more: bool)
      requires state == REQUEST_LINE
      modifies this
      ensures more ==> state == HEADERS && DriveHeaders(Val(), hostOk) == DriveLine(old(Val()), hostOk)
      ensures !more ==> Val() == DriveLine(old(Val()), hostOk)
    {
      hide RequestParser.ParseSL, Find, DriveHeaders;
      var pos := Find(buffer, CRLF, 0);
      if pos == None {
        return false;
      }
      var ok := ParseSL(buffer[..pos.value]);
      if !ok {
        return false;
      }
      buffer := buffer[pos.value + 2..];
      state := HEADERS;
      return true;
    }

    /** Take the header block off the buffer, if it is complete and the buffer is not too long. */
    method HeadersStep() returns (more: bool)
      requires state == HEADERS
      modifies this
      ensures more ==> state in {BODY, COMPLETE} && Drive(Val(), hostOk) == DriveHeaders(old(Val()), hostOk)
      ensures !more ==> Val() == DriveHeaders(old(Val()), hostOk)
    {
      hide RequestParser.ParseHeader, FindBlockEnd, DriveBody;
      if |buffer| > MAX_HEADER_SIZE {
        SetError(BAD_REQUEST);
        threw := true;
        return false;
      }
      var end := FindBlockEnd(buffer);
      if end == NotYet {
        return false;
      }
      var ok := ParseHeader(buffer[..end.pos]);
      if !ok {
        return false;
      }
      buffer := buffer[end.pos + end.skip..];
      if contentLength == 0 && !chunked {
        state := COMPLETE;
      } else {
        state := BODY;
      }
      return true;
    }

    method BodyStep()
      requires state == BODY
      modifies `mpFlag, `body, `buffer
      ensures Val() == DriveBody(old(Val()))
    {
      hide Find;
      if Find(contentType, "multipart/form-data", 0).Some? {
        mpFlag := true;
      }
      if chunked {
        body := buffer;
      } else {
        var n := if contentLength < |buffer| then contentLength else |buffer|;
        body := buffer[..n];
        buffer := buffer[n..];
      }
    }

    /** Append what was read and parse as far as it goes. */
    method ParseRequest(data: string) returns (result: ParseState)
      modifies this
      ensures Val() == RequestParser.Feed(old(Val()), data, hostOk) && result == state
    {
      hide DriveLine, DriveHeaders, DriveBody;
      buffer := buffer + data;
      ghost var start := Val();
      while state != COMPLETE && state != ERROR
        invariant Drive(Val(), hostOk) == Drive(start, hostOk)
        decreases match state case REQUEST_LINE => 2 case HEADERS => 1 case _ => 0
      {
        var more := false;
        if state == REQUEST_LINE {
          more := RequestLineStep();
        } else if state == HEADERS {
          more := HeadersStep();
        } else {
          BodyStep();
        }
        if !more {
          return state;
        }
      }
      return state;
    }
  }
}
