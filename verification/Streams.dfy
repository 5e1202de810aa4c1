/** Input streams, as far as the two readers use them. */
module Streams {
  /** An input stream; once a read has failed, it stays failed. */
  class InputStream {
    const data: string
    var pos: nat
    var failed: bool

    constructor (data: string)
      ensures Valid() && Rest() == data && !failed
    {
      this.data, pos, failed := data, 0, false;
    }

    ghost predicate Valid()
      reads this
    {
      pos <= |data| && (failed ==> pos == |data|)
    }

    ghost function Rest(): string
      reads this
      requires Valid()
    {
      data[pos..]
    }

    predicate Good()
      reads this
    {
      !failed
    }

    /** The next character; past the end, the character that end of file converts to. */
    method Get() returns (c: char)
      requires Valid()
      modifies this
      ensures Valid()
      ensures if old(failed) || old(Rest()) == "" then failed && Rest() == "" && c == '\U{00FF}'
              else !failed && old(Rest()) == [c] + Rest() && pos == old(pos) + 1
    {
      if failed || pos == |data| {
        c, failed := '\U{00FF}', true;
      } else {
        c := data[pos];
        pos := pos + 1;
      }
    }

    /** Puts the last character back; a failed stream stays where it is. */
    method Unget()
      requires Valid() && pos > 0
      modifies this
      ensures Valid() && failed == old(failed)
      ensures pos == if old(failed) then old(pos) else old(pos) - 1
    {
      if !failed {
        pos := pos - 1;
      }
    }

    /** Reads a character and puts it back. */
    method Peek() returns (c: char)
      requires Valid() && pos > 0
      modifies this
      ensures Valid() && Rest() == old(Rest())
      ensures if old(failed) || Rest() == "" then failed && c == '\U{00FF}' else !failed && c == Rest()[0]
    {
      c := Get();
      Unget();
    }
  }
}
