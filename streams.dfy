/**
 * The two sinks the handlers write to: the socket's `OutputStream`, as the bytes written to it so
 * far, and the handler's log `StringBuilder`, as its text so far.
 */
module Streams {
  import opened Bytes

  class OutputStream {
    var written: seq<byte>

    constructor ()
      ensures written == []
    {
      written := [];
    }

    /** `write(byte[])`: appends the bytes. */
    method Write(bs: seq<byte>)
      modifies this
      ensures written == old(written) + bs
    {
      written := written + bs;
    }
  }

  class StringBuilder {
    var content: string

    constructor ()
      ensures content == []
    {
      content := [];
    }

    /** `append(String)`. */
    method Append(s: string)
      modifies this
      ensures content == old(content) + s
    {
      content := content + s;
    }
  }
}
