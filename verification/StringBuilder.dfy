/** The growing string of protocol.c. */
module StringBuilders {

  class StringBuilder {
    var data: array<char>
    var len: nat

    /** Nothing allocated yet, or a NUL-terminated string in a larger block. */
    ghost predicate Valid()
      reads this, data
    {
      if data.Length == 0 then len == 0 else len < data.Length && data[len] == '\0'
    }

    ghost function Contents(): string
      reads this, data
      requires Valid()
    {
      data[..len]
    }

    constructor ()
      ensures Valid() && fresh(data) && Contents() == ""
    {
      data := new char[0];
      len := 0;
    }

    /** Doubles the block, from 256, until `extra` more characters and the NUL fit. */
    method Reserve(extra: nat)
      requires Valid()
      modifies this`data
      ensures len + extra + 1 <= data.Length && (data == old(data) || fresh(data))
      ensures data[..len] == old(Contents())
    {
      if len + extra + 1 <= data.Length {
        return;
      }
      var next := if data.Length == 0 then 256 else data.Length;
      while next < len + extra + 1
        invariant next >= 1
        decreases len + extra + 1 - next
      {
        next := next * 2;
      }
      var grown := new char[next](_ => '\0');
      forall i | 0 <= i < len {
        grown[i] := data[i];
      }
      data := grown;
    }

    method Append(text: string)
      requires Valid()
      modifies this, data
      ensures Valid() && (data == old(data) || fresh(data))
      ensures Contents() == old(Contents()) + text
    {
      Reserve(|text|);
      forall i | 0 <= i < |text| {
        data[len + i] := text[i];
      }
      len := len + |text|;
      data[len] := '\0';
    }
  }
}
