/**
 * The rewrite block buffer: a list of blocks of 10 MB that takes the bytes fed
 * during a background rewrite at its end and gives them to the pipe from its
 * front, in pieces as large as the pipe accepts.
 */
module AofBuffer {
  const AOF_RW_BUF_BLOCK_SIZE := 1024 * 1024 * 10

  /** A file descriptor to write to. A write may take fewer bytes than asked, none, or fail. */
  class Channel {
    var sent: string
    /** How many writes took nothing. */
    ghost var refusals: nat

    constructor ()
      ensures sent == "" && refusals == 0
    {
      sent, refusals := "", 0;
    }

    method Write(data: string) returns (n: int)
      modifies this
      ensures n <= |data|
      ensures sent == old(sent) + if n > 0 then data[..n] else ""
      ensures refusals == old(refusals) + if n > 0 then 0 else 1
    {
      var wanted: int := *;
      n := if wanted > |data| then |data| else wanted;
      if n > 0 { sent := sent + data[..n]; } else { refusals := refusals + 1; }
    }
  }

  class Block {
    var buf: string
    var used: nat
    var free: nat

    ghost predicate Valid()
      reads this
    {
      |buf| == AOF_RW_BUF_BLOCK_SIZE && used + free == AOF_RW_BUF_BLOCK_SIZE
    }

    ghost function Text(): string
      requires Valid()
      reads this
    {
      buf[..used]
    }

    /** A block as zmalloc leaves it: room for anything, holding nothing yet. */
    constructor ()
      ensures Valid() && used == 0
    {
      buf := seq(AOF_RW_BUF_BLOCK_SIZE, i => '\0');
      used, free := 0, AOF_RW_BUF_BLOCK_SIZE;
    }

    method CopyIn(s: string)
      requires Valid() && |s| <= free
      modifies this
      ensures Valid() && Text() == old(Text()) + s && free == old(free) - |s|
    {
      buf := buf[..used] + s + buf[used + |s|..];
      used := used + |s|;
      free := free - |s|;
    }

    method MoveOut(n: nat)
      requires Valid() && n <= used
      modifies this
      ensures Valid() && Text() == old(Text())[n..] && used == old(used) - n
    {
      buf := buf[n..used] + buf[used - n..];
      used := used - n;
      free := free + n;
    }
  }

  ghost predicate AllValid(blocks: seq<Block>)
    reads blocks
  {
    forall i :: 0 <= i < |blocks| ==> blocks[i].Valid()
  }

  ghost predicate NoneEmpty(blocks: seq<Block>)
    reads blocks
  {
    forall i :: 0 <= i < |blocks| ==> blocks[i].used > 0
  }

  ghost predicate Distinct(blocks: seq<Block>) {
    forall i, j :: 0 <= i < j < |blocks| ==> blocks[i] != blocks[j]
  }

  /** The bytes of all blocks, in order. */
  ghost function Joined(blocks: seq<Block>): string
    requires AllValid(blocks)
    reads blocks
  {
    if blocks == [] then "" else blocks[0].Text() + Joined(blocks[1..])
  }

  lemma {:induction false} JoinedSnoc(blocks: seq<Block>, b: Block)
    requires AllValid(blocks) && b.Valid()
    ensures AllValid(blocks + [b]) && Joined(blocks + [b]) == Joined(blocks) + b.Text()
  {
    var all := blocks + [b];
    if blocks == [] {
      assert all == [b] && all[1..] == [];
    } else {
      assert all[1..] == blocks[1..] + [b];
      JoinedSnoc(blocks[1..], b);
    }
  }

  class RewriteBuffer {
    var blocks: seq<Block>
    /** Whether the handler that writes to the child is installed. */
    var sending: bool
    var stop: bool

    ghost predicate Blocks()
      reads this, blocks
    {
      Distinct(blocks) && AllValid(blocks)
    }

    /** Blocks are never left empty, and bytes to be sent always have the handler installed. */
    ghost predicate Valid()
      reads this, blocks
    {
      Blocks() && NoneEmpty(blocks) && (blocks != [] && !stop ==> sending)
    }

    ghost function Contents(): string
      requires Blocks()
      reads this, blocks
    {
      Joined(blocks)
    }

    constructor ()
      ensures Valid() && Contents() == "" && !stop
      ensures blocks == []
    {
      blocks, sending, stop := [], false, false;
    }

    ghost predicate LastIsFull()
      reads this, blocks
    {
      blocks == [] || blocks[|blocks| - 1].free == 0
    }

    /** Only the last block may be empty. */
    ghost predicate FrontFilled()
      reads this, blocks
    {
      blocks == [] || NoneEmpty(blocks[..|blocks| - 1])
    }

    /** Puts as much as fits into the last block; what does not fit is left. */
    method FillLast(s: string) returns (left: string)
      requires Blocks() && FrontFilled() && blocks != [] && s != ""
      modifies blocks[|blocks| - 1]
      ensures Blocks() && NoneEmpty(blocks) && Contents() + left == old(Contents()) + s
      ensures left != "" ==> LastIsFull()
      ensures |left| <= |s| && (!old(LastIsFull()) ==> |left| < |s|)
    {
      hide Joined;
      var last := blocks[|blocks| - 1];
      ghost var front := blocks[..|blocks| - 1];
      var take := if last.free < |s| then last.free else |s|;
      assert blocks == front + [last];
      JoinedSnoc(front, last);
      Filled(Joined(front), last.Text(), s, take);
      last.CopyIn(s[..take]);
      JoinedSnoc(front, last);
      left := s[take..];
    }

    method AddBlock()
      requires Blocks() && NoneEmpty(blocks)
      modifies this`blocks
      ensures Blocks() && FrontFilled() && Contents() == old(Contents()) && !LastIsFull()
      ensures |blocks| == |old(blocks)| + 1 && blocks[..|old(blocks)|] == old(blocks) && fresh(blocks[|old(blocks)|])
    {
      hide Joined;
      var block := new Block();
      JoinedSnoc(blocks, block);
      blocks := blocks + [block];
    }

    /** One turn of the loop of aofRewriteBufferAppend. */
    method AppendSome(s: string) returns (left: string)
      requires Blocks() && FrontFilled() && s != ""
      modifies this`blocks, if blocks == [] then {} else {blocks[|blocks| - 1]}
      ensures Blocks() && FrontFilled() && Contents() + left == old(Contents()) + s
      ensures left == "" ==> NoneEmpty(blocks)
      ensures |left| < |s| || (|left| == |s| && old(LastIsFull()) && !LastIsFull())
      ensures blocks == old(blocks) || (Grown(old(blocks), blocks) && fresh(blocks[|old(blocks)|]))
    {
      hide Joined, AllValid, Distinct;
      left := s;
      if blocks != [] { left := FillLast(left); }
      if left != "" { AddBlock(); }
    }

    /** aofRewriteBufferAppend. */
    method Append(s: string)
      requires Valid()
      modifies this, blocks
      ensures Valid() && Contents() == old(Contents()) + s && stop == old(stop)
      ensures forall i :: 0 <= i < |blocks| ==> blocks[i] in old(blocks) || fresh(blocks[i])
    {
      hide Joined, AllValid, Distinct, LastIsFull;
      var left := s;
      while left != ""
        invariant Blocks() && FrontFilled() && Contents() + left == old(Contents()) + s
        invariant left == "" ==> NoneEmpty(blocks)
        invariant forall i :: 0 <= i < |blocks| ==> blocks[i] in old(blocks) || fresh(blocks[i])
        invariant stop == old(stop)
        decreases |left|, LastIsFull()
      {
        left := AppendSome(left);
      }
      sending := true;
    }
  
    /** One write from the first block. */
    method SendFirst(pipe: Channel) returns (n: int)
      requires Blocks() && NoneEmpty(blocks) && blocks != []
      modifies blocks[0], pipe
      ensures Blocks() && NoneEmpty(blocks[1..]) && pipe.sent + Contents() == old(pipe.sent + Contents())
      ensures n <= 0 ==> NoneEmpty(blocks)
      ensures n > 0 ==> |Contents()| < |old(Contents())|
      ensures pipe.refusals == old(pipe.refusals) + if n > 0 then 0 else 1
    {
      hide Joined;
      var block := blocks[0];
      ghost var text, others, sent := block.Text(), Joined(blocks[1..]), pipe.sent;
      JoinedCons(blocks);
      n := pipe.Write(block.buf[..block.used]);
      if n > 0 {
        block.MoveOut(n);
        JoinedCons(blocks);
        Sent(sent, text, others, n);
      }
    }

    /** Sends from the first block; a block that is all sent goes. */
    method SendSome(pipe: Channel) returns (going: bool)
      requires Blocks() && NoneEmpty(blocks) && blocks != []
      modifies this`blocks, blocks[0], pipe
      ensures Blocks() && NoneEmpty(blocks) && pipe.sent + Contents() == old(pipe.sent + Contents())
      ensures blocks == old(blocks) || (going && blocks == old(blocks)[1..])
      ensures going ==> |Contents()| < |old(Contents())|
      ensures pipe.refusals == old(pipe.refusals) + if going then 0 else 1
    {
      hide Joined;
      var n := SendFirst(pipe);
      going := n > 0;
      if going && blocks[0].used == 0 {
        JoinedCons(blocks);
        blocks := blocks[1..];
      }
    }

    /**
     * aofChildWriteDiffData: blocks leave only at the front, and only when all sent. It goes on until a
     * write takes nothing, or until there is nothing to send, when the handler is removed.
     */
    method ChildWriteDiffData(pipe: Channel)
      requires Valid()
      modifies this, blocks, pipe
      ensures Valid() && pipe.sent + Contents() == old(pipe.sent + Contents())
      ensures stop == old(stop) && (stop ==> pipe.sent == old(pipe.sent) && blocks == old(blocks))
      ensures IsTail(blocks, old(blocks))
      ensures if stop || blocks == [] then !sending && pipe.refusals == old(pipe.refusals)
              else sending == old(sending) && pipe.refusals == old(pipe.refusals) + 1
    {
      hide Joined, AllValid, Distinct, NoneEmpty;
      while true
        invariant Valid() && pipe.sent + Contents() == old(pipe.sent + Contents())
        invariant stop == old(stop) && (stop ==> pipe.sent == old(pipe.sent) && blocks == old(blocks))
        invariant IsTail(blocks, old(blocks))
        invariant sending == old(sending) && pipe.refusals == old(pipe.refusals)
        decreases |Contents()|
      {
        if stop || blocks == [] {
          sending := false;
          return;
        }
        assert blocks[0] in old(blocks);
        var going := SendSome(pipe);
        if !going { return; }
      }
    }

    /** aofRewriteBufferSize. */
    method Size() returns (size: nat)
      requires Blocks()
      ensures size == |Contents()|
    {
      size := 0;
      for i := 0 to |blocks|
        invariant size == |Joined(blocks[..i])|
      {
        assert blocks[..i + 1] == blocks[..i] + [blocks[i]];
        JoinedSnoc(blocks[..i], blocks[i]);
        size := size + blocks[i].used;
      }
      assert blocks[..|blocks|] == blocks;
    }

    /** aofRewriteBufferWrite: all the bytes, or -1 when some write was short and the file got only a first part. */
    method WriteTo(file: Channel) returns (count: int)
      requires Blocks()
      modifies file
      ensures old(file.sent) <= file.sent <= old(file.sent) + Contents()
      ensures count == if file.sent == old(file.sent) + Contents() then |Contents()| else -1
    {
      hide Joined;
      count := 0;
      NothingJoined();
      for i := 0 to |blocks|
        invariant count == |Joined(blocks[..i])| && file.sent == old(file.sent) + Joined(blocks[..i])
      {
        assert blocks[..i + 1] == blocks[..i] + [blocks[i]];
        JoinedSnoc(blocks[..i], blocks[i]);
        var block := blocks[i];
        JoinedSplits(blocks, i);
        JoinedCons(blocks[i..]);
        if block.used > 0 {
          var n := file.Write(block.buf[..block.used]);
          if n != block.used { return -1; }
          count := count + n;
        }
      }
      assert blocks[..|blocks|] == blocks;
    }
  }

  lemma Filled(front: string, text: string, s: string, take: nat)
    requires take <= |s|
    ensures front + (text + s[..take]) + s[take..] == front + text + s
  {
    assert s[..take] + s[take..] == s;
  }

  lemma Sent(sent: string, text: string, others: string, n: nat)
    requires n <= |text|
    ensures sent + text[..n] + (text[n..] + others) == sent + (text + others)
  {
    assert text[..n] + text[n..] == text;
  }

  lemma {:induction false} JoinedSplits(blocks: seq<Block>, k: nat)
    requires AllValid(blocks) && k <= |blocks|
    ensures AllValid(blocks[..k]) && AllValid(blocks[k..])
    ensures Joined(blocks) == Joined(blocks[..k]) + Joined(blocks[k..])
  {
    if k == 0 {
      assert blocks[..k] == [] && blocks[k..] == blocks;
    } else {
      JoinedSplits(blocks[1..], k - 1);
      assert blocks[..k][1..] == blocks[1..][..k - 1];
      assert blocks[1..][k - 1..] == blocks[k..];
    }
  }

  lemma JoinedCons(blocks: seq<Block>)
    requires AllValid(blocks) && blocks != []
    ensures AllValid(blocks[1..]) && Joined(blocks) == blocks[0].Text() + Joined(blocks[1..])
  {
  }

  lemma NothingJoined()
    ensures Joined([]) == ""
  {
  }

  ghost predicate IsTail(some: seq<Block>, all: seq<Block>) {
    |some| <= |all| && some == all[|all| - |some|..]
  }

  ghost predicate Grown(before: seq<Block>, after: seq<Block>) {
    |after| == |before| + 1 && after[..|before|] == before
  }
}
