/** The disk as the file system sees it: numbered blocks, each written whole and at once. */
module BlockDisk {

  /** BSIZE / sizeof(int): a block seen as an array of C ints, the view the log header uses. */
  const WORDS := 256

  type Block = b: seq<int> | |b| == WORDS witness seq(WORDS, _ => 0)

  type Image = seq<Block>

  datatype Write = Write(blockno: nat, data: Block)

  const ZERO_BLOCK: Block := seq(WORDS, _ => 0)

  /** The image after the writes in ws, in order; a write past the end of the disk has no effect. */
  function Apply(d: Image, ws: seq<Write>): (e: Image)
    ensures |e| == |d|
  {
    if ws == [] then d
    else
      var before := Apply(d, ws[..|ws| - 1]);
      var w := ws[|ws| - 1];
      if w.blockno < |before| then before[w.blockno := w.data] else before
  }

  lemma ApplyNone(d: Image)
    ensures Apply(d, []) == d
  {
  }

  lemma ApplyStep(d: Image, ws: seq<Write>, w: Write)
    requires w.blockno < |d|
    ensures Apply(d, ws + [w]) == Apply(d, ws)[w.blockno := w.data]
  {
    assert (ws + [w])[..|ws + [w]| - 1] == ws;
  }

  /** One more write of a sequence carried out. */
  lemma ApplyNext(d: Image, ws: seq<Write>, k: nat)
    requires k < |ws| && ws[k].blockno < |d|
    ensures Apply(d, ws[..k + 1]) == Apply(d, ws[..k])[ws[k].blockno := ws[k].data]
  {
    assert ws[..k + 1][..k] == ws[..k];
  }

  lemma {:induction false} ApplyConcat(d: Image, first: seq<Write>, second: seq<Write>)
    ensures Apply(d, first + second) == Apply(Apply(d, first), second)
  {
    if second == [] {
      assert first + second == first;
    } else {
      var rest := second[..|second| - 1];
      ApplyConcat(d, first, rest);
      assert (first + second)[..|first + second| - 1] == first + rest;
    }
  }

  /** A block no write in ws names keeps its content. */
  lemma {:induction false} ApplyElsewhere(d: Image, ws: seq<Write>, b: nat)
    requires b < |d|
    requires forall i :: 0 <= i < |ws| ==> ws[i].blockno != b
    ensures Apply(d, ws)[b] == d[b]
  {
    if ws != [] {
      ApplyElsewhere(d, ws[..|ws| - 1], b);
    }
  }

  /** The last write to a block decides its content. */
  lemma {:induction false} ApplyLast(d: Image, ws: seq<Write>, i: nat)
    requires i < |ws| && ws[i].blockno < |d|
    requires forall j :: i < j < |ws| ==> ws[j].blockno != ws[i].blockno
    ensures Apply(d, ws)[ws[i].blockno] == ws[i].data
  {
    if i < |ws| - 1 {
      ApplyLast(d, ws[..|ws| - 1], i);
    }
  }
}
