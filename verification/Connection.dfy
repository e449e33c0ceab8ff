/** The per-client state that the request pipeline, the CGI manager and the writers update in place. */
module Connection {
  import opened Text
  import opened EventPolling

  /** Where the multipart splitter stands; MP_ERROR exists in the source but is never assigned. */
  datatype MPState = MP_BOUNDARY | MP_HEADER | MP_BODY | MP_END

  /** A std::ofstream: not open, open and good, or open with an error flag set. */
  datatype FileStream = CLOSED | GOOD | FAILED

  const FILE_BUF_SIZE: nat := 65536

  class ClientCon {
    const fd: int
    /** The response fallback_error builds for a status and a keep-alive flag. */
    const errorPage: (int, bool) -> string
    /** A server block has been found for the connection. */
    var hasServConf: bool

    var responseOut: string
    var sent: nat
    var resReady: bool
    var keepAlive: bool
    var closeAfterSend: bool

    var fileStreamActive: bool
    var fileBytesRemaining: nat
    const fileBuf: array<char>
    var fileBufLen: nat
    var fileBufOff: nat

    var cgiActive: bool
    var cgiForceClose: bool
    var cgiStreaming: bool
    var cgiBodyRemaining: nat
    var cgiChunked: bool

    var mpFlag: bool
    var boundary: string
    var mpBuffer: string
    var mpPart: nat
    var multipartState: MPState
    var uploadFile: string
    var uploadStream: FileStream
    var chunkBuf: string
    var uploadBytesRemaining: nat
    var uploadedBytes: Size
    var chunked: bool
    var uploadActive: bool

    /** How long the body of the request behind a script is announced to be, and how much the script has been fed. */
    ghost var cgiBodyTotal: nat
    ghost var cgiFed: nat
    /** The streaming flag was set for the running script, and not left over from an earlier one. */
    ghost var cgiOwnStream: bool
    /** The status of the last fallback_error. */
    ghost var lastError: Option<int>
    /** The bytes the peer has been sent for the current response. */
    ghost var wire: string
    /** The kernel's side of file_fd: the file being streamed, and how much of it has been read. */
    var fileData: string
    var fileRead: nat

    /** As a connection is when it has been accepted. */
    ghost predicate IsNew(fd: int, errorPage: (int, bool) -> string)
      reads this
    {
      && this.fd == fd && this.errorPage == errorPage && !hasServConf && fileBuf.Length == FILE_BUF_SIZE
      && responseOut == "" && sent == 0 && !resReady && !keepAlive && !closeAfterSend
      && !fileStreamActive && fileBytesRemaining == 0 && fileBufLen == 0 && fileBufOff == 0
      && !cgiActive && !cgiForceClose && !cgiStreaming && cgiBodyRemaining == 0 && !cgiChunked
      && !mpFlag && boundary == "" && mpBuffer == "" && mpPart == 0 && multipartState == MP_BOUNDARY
      && uploadFile == "" && uploadStream == CLOSED && chunkBuf == "" && !chunked && !uploadActive
      && uploadBytesRemaining == 0 && uploadedBytes == 0 && fileData == "" && fileRead == 0
    }

    constructor (fd: int, errorPage: (int, bool) -> string)
      ensures IsNew(fd, errorPage) && fresh(fileBuf) && lastError == None && wire == ""
    {
      this.fd := fd;
      this.errorPage := errorPage;
      responseOut, sent, resReady, keepAlive, closeAfterSend, hasServConf := "", 0, false, false, false, false;
      fileBuf := new char[FILE_BUF_SIZE](_ => ' ');
      fileStreamActive, fileBytesRemaining, fileBufLen, fileBufOff := false, 0, 0, 0;
      cgiActive, cgiForceClose, cgiStreaming, cgiBodyRemaining, cgiChunked := false, false, false, 0, false;
      mpFlag, boundary, mpBuffer, mpPart, multipartState := false, "", "", 0, MP_BOUNDARY;
      uploadFile, uploadStream, chunkBuf, chunked, uploadActive := "", CLOSED, "", false, false;
      uploadBytesRemaining, uploadedBytes := 0, 0;
      lastError, wire, fileData, fileRead, cgiBodyTotal, cgiFed, cgiOwnStream := None, "", "", 0, 0, 0, true;
    }

    /** How the body of its request is to reach a script is untouched, and so is the length of what has been fed. */
    twostate predicate StreamKept()
      reads `cgiStreaming, `cgiChunked, `cgiBodyRemaining, `cgiBodyTotal, `cgiFed, `cgiOwnStream, `chunkBuf
    {
      && cgiStreaming == old(cgiStreaming) && cgiChunked == old(cgiChunked) && cgiBodyRemaining == old(cgiBodyRemaining)
      && cgiBodyTotal == old(cgiBodyTotal) && cgiFed == old(cgiFed) && cgiOwnStream == old(cgiOwnStream)
      && chunkBuf == old(chunkBuf)
    }

    /** What the writers and the body feed keep between two events is untouched. */
    twostate predicate Kept()
      reads `sent, `wire, `fileStreamActive, `fileBytesRemaining, `fileBufLen, `fileBufOff, `fileData, `fileRead
      reads `cgiStreaming, `cgiChunked, `cgiBodyRemaining, `cgiBodyTotal, `cgiFed, `cgiOwnStream, `chunkBuf
    {
      && sent == old(sent) && wire == old(wire) && fileStreamActive == old(fileStreamActive)
      && fileBytesRemaining == old(fileBytesRemaining) && fileBufLen == old(fileBufLen) && fileBufOff == old(fileBufOff)
      && fileData == old(fileData) && fileRead == old(fileRead) && StreamKept()
    }

    /**
     * Queue an error response in place of whatever was queued, and wait until it can be sent. Without a server block
     * the connection is to be closed.
     */
    method FallbackError(poller: EventPoller, status: int)
      modifies `responseOut, `resReady, `keepAlive, `lastError, poller`interest
      ensures responseOut == errorPage(status, keepAlive) && resReady && lastError == Some(status)
      ensures keepAlive == (old(keepAlive) && hasServConf)
      ensures poller.interest == old(poller.interest)[fd := WRITABLE]
    {
      if !hasServConf {
        keepAlive := false;
      }
      responseOut := errorPage(status, keepAlive);
      resReady := true;
      lastError := Some(status);
      poller.Update(fd, false, true);
    }
  }
}
