/** Inodes on disk: eight 64-byte `struct dinode` to a block. */
module Dinode {
  import opened Blocks
  import opened FileTree

  /** ws copied word by word into b from word `at` on. */
  function StoreWords(b: Block, at: nat, ws: seq<Word>): (r: Block)
    requires at + |ws| <= WORDS
    ensures forall j: nat :: j < WORDS ==>
      WordAt(r, j) == if at <= j < at + |ws| then ws[j - at] else WordAt(b, j)
    decreases |ws|
  {
    if ws == [] then b else StoreWords(SetWord(b, at, ws[0]), at + 1, ws[1..])
  }

  function LoadWords(b: Block, at: nat, n: nat): (ws: seq<Word>)
    requires at + n <= WORDS
    ensures |ws| == n && forall k: nat :: k < n ==> ws[k] == WordAt(b, at + k)
  {
    if n == 0 then [] else LoadWords(b, at, n - 1) + [WordAt(b, at + n - 1)]
  }

  /** The k-th dinode of a block. */
  function LoadInode(b: Block, k: nat): (ip: Inode)
    requires k < 8
    ensures |ip.addrs| == 13
  {
    Inode(WordAt(b, 16 * k), WordAt(b, 16 * k + 1), WordAt(b, 16 * k + 2), LoadWords(b, 16 * k + 3, 13))
  }

  /** Block b after iupdate copied ip over its k-th dinode. */
  function StoreInode(b: Block, k: nat, ip: Inode): (r: Block)
    requires k < 8 && |ip.addrs| == 13
    ensures WordAt(r, 16 * k) == ip.kind && WordAt(r, 16 * k + 1) == ip.links && WordAt(r, 16 * k + 2) == ip.size
    ensures forall j: nat :: j < 13 ==> WordAt(r, 16 * k + 3 + j) == ip.addrs[j]
  {
    StoreWords(b, 16 * k, [ip.kind, ip.links, ip.size] + ip.addrs)
  }

  /** What iupdate stores is what ilock loads, and the other seven dinodes stay. */
  lemma InodeRoundTrip(b: Block, k: nat, ip: Inode, j: nat)
    requires k < 8 && j < 8 && |ip.addrs| == 13
    ensures LoadInode(StoreInode(b, k, ip), j) == if j == k then ip else LoadInode(b, j)
  {
    var ws := [ip.kind, ip.links, ip.size] + ip.addrs;
    var r := StoreInode(b, k, ip);
    if j == k {
      assert LoadInode(r, k).addrs == ws[3..] == ip.addrs;
    } else {
      assert LoadInode(r, j).addrs == LoadInode(b, j).addrs;
    }
  }

  /** The inode as the disk has it. */
  function OnDisk(sb: Superblock, d: seq<Block>, inum: nat): (ip: Inode)
    requires sb.inodestart + inum / 8 < |d|
  {
    LoadInode(d[sb.inodestart + inum / 8], inum % 8)
  }
}
