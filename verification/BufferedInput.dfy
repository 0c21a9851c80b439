// Buffered script input, input.c: a private buffer over a file whose offset
// is shared with the children of the shell.

module BufferedInput {
  import opened Options

  // An open file: what it holds, and the offset the kernel keeps.
  class File {
    const data: string
    var offset: nat

    constructor (data: string)
      ensures this.data == data && offset == 0
    {
      this.data, offset := data, 0;
    }

    // What is still to be read.
    ghost function Left(): string
      reads this
    {
      if offset < |data| then data[offset..] else ""
    }

    // read: fills the buffer with some of the bytes that are left; none at the
    // end or beyond it.  How many is up to the kernel.
    method Read(buffer: array<char>, wanted: nat) returns (nr: nat)
      requires buffer.Length > 0
      modifies this`offset, buffer
      ensures nr <= buffer.Length && offset == old(offset) + nr && old(Left()) == buffer[..nr] + Left()
      ensures nr == 0 <==> old(Left()) == ""
      ensures nr > 0 ==> offset <= |data| && buffer[..nr] == data[old(offset)..offset]
    {
      if offset >= |data| { return 0; }
      nr := if wanted == 0 then 1 else if wanted > buffer.Length then buffer.Length else wanted;
      if nr > |data| - offset { nr := |data| - offset; }
      var k := 0;
      while k < nr
        invariant 0 <= k <= nr && buffer[..k] == data[offset..offset + k]
        modifies buffer
      {
        buffer[k] := data[offset + k];
        k := k + 1;
      }
      offset := offset + nr;
    }
  }

  // The characters of a buffer that were not consumed.
  function Unread(buffer: string, used: nat, inputp: nat): string
    requires used <= |buffer| && (used > 0 ==> inputp <= used)
  {
    if used > 0 then buffer[inputp..used] else ""
  }

  // The bytes are those just before the offset.
  predicate EndsAt(bytes: string, data: string, offset: nat) {
    |bytes| <= offset <= |data| && bytes == data[offset - |bytes|..offset]
  }

  // What pushing c back does to a buffer.
  lemma SteppedBack(b: string, used: nat, i: nat, c: char, data: string, offset: nat)
    requires used <= |b| && i < |b| && (used > 0 ==> i < used)
    ensures used > 0 ==> Unread(b[i := c], used, i) == [c] + Unread(b, used, i + 1)
    ensures i < used && EndsAt(b[..used], data, offset) && c == data[offset - used + i] ==>
              EndsAt(b[i := c][..used], data, offset)
  {
    if i < used && EndsAt(b[..used], data, offset) && c == data[offset - used + i] {
      assert b[..used][i] == data[offset - used..offset][i];
      assert b[i := c] == b;
    }
  }

  // A BUFFERED_STREAM.
  class Stream {
    const file: File
    const size: nat
    var buffer: array<char>
    var used: nat
    var inputp: nat
    var eof: bool

    constructor (file: File, size: nat)
      requires size > 0
      ensures Valid() && this.file == file && this.size == size && fresh(buffer) && !eof && inputp == 0 == used
      ensures Pending() == file.Left() && (file.offset <= |file.data| ==> InStep()) && Position() == file.offset
    {
      this.file, this.size := file, size;
      buffer := new char[size];
      used, inputp, eof := 0, 0, false;
    }

    // b_used is 0 when the end was seen, and then b_inputp says nothing.
    ghost predicate Valid()
      reads this, buffer, file
    {
      && buffer.Length == size > 0 && used <= size && inputp <= size
      && used <= file.offset && (used > 0 ==> inputp <= used)
    }

    // The characters that are going to be read.
    ghost function Pending(): string
      requires Valid()
      reads this, buffer, file
    {
      Unread(buffer[..], used, inputp) + file.Left()
    }

    // The buffer holds the bytes of the file just before the kernel's offset.
    ghost predicate InStep()
      reads this, buffer, file
    {
      && used <= buffer.Length && inputp <= used
      && EndsAt(buffer[..used], file.data, file.offset)
    }

    // The logical position: what was consumed so far.
    ghost function Position(): int
      reads this, file
    {
      file.offset - (used - inputp)
    }

    lemma PendingIsRest()
      requires Valid() && InStep()
      ensures 0 <= Position() <= |file.data| && Pending() == file.data[Position()..]
      ensures inputp <= used && file.offset <= |file.data|
    {
      var held := file.data[file.offset - used..file.offset];
      assert buffer[inputp..used] == buffer[..used][inputp..] == held[inputp..];
    }

    // b_fill_buffer
    method Fill(wanted: nat) returns (c: Option<char>)
      requires Valid() && (used == 0 || inputp == used)
      modifies this, buffer, file`offset
      ensures Valid() && buffer == old(buffer)
      ensures old(Pending()) == (if c.Some? then [c.value] else "") + Pending()
      ensures c.None? <==> old(Pending()) == ""
      ensures c.Some? ==> inputp == 1 && eof == old(eof)
      ensures c.None? ==> eof && used == 0 && inputp == old(inputp) && file.offset == old(file.offset)
      ensures c.Some? && old(InStep()) ==> InStep() && Position() == old(Position()) + 1
    {
      hide File.Left;
      var nr := file.Read(buffer, wanted);
      if nr == 0 {
        used := 0;
        buffer[0] := '\0';
        eof := true;
        return None;
      }
      used := nr;
      inputp := 0;
      assert buffer[..used] == [buffer[0]] + buffer[1..used];
      inputp := inputp + 1;
      c := Some(buffer[inputp - 1]);
    }

    // bufstream_getc: the next pending character, whatever the kernel returns.
    method Getc(wanted: nat) returns (c: Option<char>)
      requires Valid()
      modifies this, buffer, file`offset
      ensures Valid() && buffer == old(buffer)
      ensures old(Pending()) == (if c.Some? then [c.value] else "") + Pending()
      ensures c.None? <==> old(Pending()) == ""
      ensures c.Some? ==> inputp > 0 && eof == old(eof)
      ensures c.None? ==> eof && used == 0 && inputp == old(inputp) && file.offset == old(file.offset)
      ensures c.Some? && old(InStep()) ==> InStep() && Position() == old(Position()) + 1
    {
      if inputp == used || used == 0 {
        c := Fill(wanted);
      } else {
        assert buffer[inputp..used] == [buffer[inputp]] + buffer[inputp + 1..used];
        inputp := inputp + 1;
        c := Some(buffer[inputp - 1]);
      }
    }

    // bufstream_ungetc: c is read next, unless the end was seen since: then it
    // is lost.  Pushing back what was read keeps the buffer in step.
    method Ungetc(c: char) returns (ok: bool)
      requires Valid()
      modifies this`inputp, buffer
      ensures Valid() && (ok <==> old(inputp) > 0)
      ensures Pending() == if ok && used > 0 then [c] + old(Pending()) else old(Pending())
      ensures ok ==> Position() == old(Position()) - 1
      ensures old(InStep()) && ok && c == file.data[old(Position()) - 1] ==> InStep()
    {
      hide File.Left;
      if inputp == 0 { return false; }
      ghost var was := buffer[..];
      inputp := inputp - 1;
      buffer[inputp] := c;
      assert buffer[..] == was[inputp := c];
      SteppedBack(was, used, inputp, c, file.data, file.offset);
      hide Unread, EndsAt;
      ok := true;
    }

    // sync_buffered_stream: the kernel's offset becomes the logical position,
    // so that a child reads on exactly where the shell stopped; what is going
    // to be read stays as it was.  Once the end of the file was seen, the
    // buffer counts as empty but b_inputp still says how much of it was
    // consumed: then the position, and so the offset, is past the end.
    method Sync()
      requires Valid()
      modifies this`used, this`inputp, file`offset
      ensures Valid() && used == 0 && inputp == 0 && file.offset == Position() == old(Position())
      ensures old(InStep()) ==> InStep() && Pending() == old(Pending())
    {
      ghost var inStep := InStep();
      if inStep { PendingIsRest(); }
      var left := used - inputp;
      if left != 0 { file.offset := file.offset - left; }
      used, inputp := 0, 0;
      if inStep { PendingIsRest(); }
    }

    // Reading to the end gives exactly what was still to be read, however the
    // kernel splits it.
    method ReadRest(wanted: nat) returns (text: string)
      requires Valid()
      modifies this, buffer, file`offset
      ensures Valid() && text == old(Pending()) && Pending() == "" && eof
      ensures old(InStep()) ==> text == file.data[old(Position())..]
    {
      hide Pending, File.Left;
      if InStep() { PendingIsRest(); }
      text := "";
      ghost var all := Pending();
      var c := Getc(wanted);
      while c.Some?
        invariant Valid() && buffer == old(buffer)
        invariant c.Some? ==> all == text + [c.value] + Pending()
        invariant c.None? ==> eof && all == text && Pending() == ""
        decreases c.Some?, |Pending()|
      {
        text := text + [c.value];
        c := Getc(wanted);
      }
    }
  }

  // A script whose last byte was read and whose end was seen, synced again:
  // the offset is then beyond the end, by as much as the last read gave.
  method EndMovesOffset(text: string) returns (s: Stream)
    requires text != ""
    ensures fresh(s) && fresh(s.file) && s.file.data == text && s.file.offset > |text|
  {
    hide Stream.Pending, File.Left, EndsAt;
    var f := new File(text);
    s := new Stream(f, |text|);
    s.PendingIsRest();
    var c := s.Getc(|text|);
    while c.Some?
      invariant s.Valid() && fresh(s) && fresh(f) && fresh(s.buffer) && s.file == f && f.data == text && s.inputp > 0
      invariant c.Some? ==> s.InStep()
      invariant c.None? ==> s.used == 0 && f.offset == |text|
      decreases c.Some?, |s.Pending()|
    {
      s.PendingIsRest();
      c := s.Getc(|text|);
    }
    s.Sync();
  }
}
