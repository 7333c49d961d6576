/**
  The `Cursor` of `src/cursor.rs`: a forward-only reader over the expanded
  character stream. The stream is materialised once (`chars`) and the
  iterator's state is the index `pos` of its next unread character, so what
  the iterator still holds is `chars[pos..]`. Every operation leaves a suffix
  of what remained before: nothing is restored or reordered.
 */
module CharCursor {
  import opened Options
  import opened Chars

  class Cursor {
    const chars: seq<Char>
    var pos: nat

    ghost predicate Valid()
      reads this
    {
      pos <= |chars|
    }

    /** The characters the iterator has not yet yielded. */
    function Remaining(): seq<Char>
      reads this
      requires Valid()
    {
      chars[pos..]
    }

    /** `cursor`: expand the lines into the character stream, unread. */
    constructor (lines: seq<string>)
      ensures Valid()
      ensures chars == CharsIter(lines)
      ensures Remaining() == CharsIter(lines)
    {
      chars := CharsIter(lines);
      pos := 0;
    }

    /** `next`: yield the first remaining character and drop it; yield `None`
        and change nothing when the stream is exhausted. */
    method Next() returns (r: Option<Char>)
      requires Valid()
      modifies this
      ensures Valid()
      ensures old(pos) <= pos && Remaining() == old(Remaining())[pos - old(pos)..]
      ensures r.None? <==> old(Remaining()) == []
      ensures r.None? ==> pos == old(pos)
      ensures r.Some? ==> r.value == old(Remaining())[0] && Remaining() == old(Remaining())[1..]
    {
      if pos < |chars| {
        r := Some(chars[pos]);
        pos := pos + 1;
      } else {
        r := None;
      }
    }

    /** `consume`: drop the first remaining character and answer `true` when
        it is `c`; otherwise answer `false` and change nothing. */
    method Consume(c: char) returns (b: bool)
      requires Valid()
      modifies this
      ensures Valid()
      ensures old(pos) <= pos && Remaining() == old(Remaining())[pos - old(pos)..]
      ensures b <==> old(Remaining()) != [] && old(Remaining())[0].c == c
      ensures pos == if b then old(pos) + 1 else old(pos)
    {
      if pos < |chars| && chars[pos].c == c {
        pos := pos + 1;
        b := true;
      } else {
        b := false;
      }
    }

    /** `skip`: drop the longest prefix of the remaining characters that
        satisfy `p`; what remains is empty or starts with a character `p`
        rejects. */
    method Skip(p: char -> bool)
      requires Valid()
      modifies this
      ensures Valid()
      ensures old(pos) <= pos && Remaining() == old(Remaining())[pos - old(pos)..]
      ensures forall k :: old(pos) <= k < pos ==> p(chars[k].c)
      ensures Remaining() == [] || !p(Remaining()[0].c)
    {
      while pos < |chars| && p(chars[pos].c)
        invariant old(pos) <= pos <= |chars|
        invariant forall k :: old(pos) <= k < pos ==> p(chars[k].c)
      {
        pos := pos + 1;
      }
    }
  }
}
