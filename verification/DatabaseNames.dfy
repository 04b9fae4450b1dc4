/** Physical database names (shared/db_utils.py): deterministic, bounded and collision-free. */
module DatabaseNames {
  import opened Text

  const IDENTIFIER_MAX_BYTES: nat := 63
  const DIGEST_CHARS: nat := 32

  /** SHA-256 cut to 32 hexadecimal digits, as a function of (base database, task). */
  type Digest = (string, string) -> string

  predicate IsHex(c: char)
  {
    '0' <= c <= '9' || 'a' <= c <= 'f'
  }

  predicate IsDigestText(s: string)
  {
    |s| == DIGEST_CHARS && forall k :: 0 <= k < |s| ==> IsHex(s[k])
  }

  /** What a physical name is derived from: the base database and the task. */
  type Identity = (string, string)

  ghost predicate IsDigest(digest: Digest)
  {
    forall base, task :: IsDigestText(digest(base, task))
  }

  /** The digest tells the identities in play apart. No digest tells all identities apart: there are more identities
      than texts of 32 digits. */
  ghost predicate DigestOk(digest: Digest, ids: set<Identity>)
  {
    && IsDigest(digest)
    && (forall i, j :: i in ids && j in ids && digest(i.0, i.1) == digest(j.0, j.1) ==> i == j)
  }

  datatype Names = Names(task: string, initial: string, phase1: string)
  {
    function Owned(): set<string>
    {
      {task, initial, phase1}
    }
  }

  function TaskDatabaseNames(digest: Digest, base: string, task: string): Names
  {
    var d := digest(base, task);
    Names("bi_t_" + d, "bi_i_" + d, "bi_p_" + d)
  }

  function TemplateName(base: string): string
  {
    base + "_template"
  }

  predicate IsTemplateName(name: string)
  {
    |name| >= 9 && name[|name| - 9..] == "_template"
  }

  /** What the target and template checks before every drop demand. */
  predicate ValidIdentifier(name: string)
  {
    0 < |name| <= IDENTIFIER_MAX_BYTES
  }

  /** PostgreSQL's limit: from one to sixty-three. */
  lemma IdentifierLimit(name: string)
    ensures ValidIdentifier(name) <==> name != "" && |name| < 64
  {
  }

  lemma TemplateNamesAreRecognised(base: string)
    ensures IsTemplateName(TemplateName(base))
  {
    assert TemplateName(base)[|TemplateName(base)| - 9..] == "_template";
  }

  lemma PhysicalNameIsNoTemplate(prefix: string, d: string)
    requires IsDigestText(d)
    ensures !IsTemplateName(prefix + d)
  {
    var name := prefix + d;
    assert name[|name| - 9..][0] == d[23];
    assert "_template"[0] == '_';
  }

  /** Every name passes the length check, the three roles differ, and none is a base template. */
  lemma NamesAreUsable(digest: Digest, base: string, task: string)
    requires IsDigest(digest)
    ensures var n := TaskDatabaseNames(digest, base, task);
            && ValidIdentifier(n.task) && ValidIdentifier(n.initial) && ValidIdentifier(n.phase1)
            && n.task != n.initial && n.task != n.phase1 && n.initial != n.phase1
            && forall name :: name in n.Owned() ==> !IsTemplateName(name)
  {
    var d := digest(base, task);
    var n := TaskDatabaseNames(digest, base, task);
    assert n.task[3] == 't' && n.initial[3] == 'i' && n.phase1[3] == 'p';
    PhysicalNameIsNoTemplate("bi_t_", d);
    PhysicalNameIsNoTemplate("bi_i_", d);
    PhysicalNameIsNoTemplate("bi_p_", d);
  }

  /** Two (base, task) identities share no physical database in any role exactly when their digests differ. */
  lemma NamesAreDisjoint(digest: Digest, b0: string, t0: string, b1: string, t1: string)
    ensures TaskDatabaseNames(digest, b0, t0).Owned() !! TaskDatabaseNames(digest, b1, t1).Owned()
            <==> digest(b0, t0) != digest(b1, t1)
  {
    var d0, d1 := digest(b0, t0), digest(b1, t1);
    if d0 != d1 {
      forall p: string, q: string | |p| == 5 && |q| == 5
        ensures p + d0 != q + d1
      {
        assert (p + d0)[5..] == d0 && (q + d1)[5..] == d1;
      }
      assert |"bi_t_"| == 5 && |"bi_i_"| == 5 && |"bi_p_"| == 5;
    } else {
      assert "bi_t_" + d0 in TaskDatabaseNames(digest, b0, t0).Owned();
      assert "bi_t_" + d1 in TaskDatabaseNames(digest, b1, t1).Owned();
    }
  }

  // ----- a digest for every set of identities

  function Power(n: nat): nat
  {
    if n == 0 then 1 else 16 * Power(n - 1)
  }

  function HexDigit(n: nat): (c: char)
    requires n < 16
    ensures IsHex(c)
  {
    if n < 10 then ('0' as int + n) as char else ('a' as int + (n - 10)) as char
  }

  /** The last `width` hexadecimal digits of a number. */
  function Hex(width: nat, n: nat): (s: string)
    ensures |s| == width && forall k :: 0 <= k < width ==> IsHex(s[k])
  {
    if width == 0 then "" else Hex(width - 1, n / 16) + [HexDigit(n % 16)]
  }

  lemma {:induction false} HexIsInjective(width: nat, m: nat, n: nat)
    requires m < Power(width) && n < Power(width) && Hex(width, m) == Hex(width, n)
    ensures m == n
    decreases width
  {
    if width > 0 {
      var a, b := Hex(width - 1, m / 16), Hex(width - 1, n / 16);
      assert Hex(width, m)[..width - 1] == a && Hex(width, n)[..width - 1] == b;
      assert Hex(width, m)[width - 1] == HexDigit(m % 16) && Hex(width, n)[width - 1] == HexDigit(n % 16);
      HexIsInjective(width - 1, m / 16, n / 16);
    }
  }

  /** The position of an identity in a list, or the list's length. */
  function IndexOf(order: seq<Identity>, id: Identity): (k: nat)
    ensures k <= |order|
    ensures k < |order| <==> id in order
    ensures k < |order| ==> order[k] == id
  {
    if order == [] then 0 else if order[0] == id then 0 else 1 + IndexOf(order[1..], id)
  }

  /** A digest that numbers the listed identities. */
  function DigestFor(width: nat, order: seq<Identity>): Digest
  {
    (base: string, task: string) => Hex(width, IndexOf(order, (base, task)))
  }

  /** As long as there are no more identities than digest texts, some digest tells them apart. */
  lemma DigestsExist(width: nat, order: seq<Identity>)
    requires width == DIGEST_CHARS && |order| <= Power(width)
    ensures DigestOk(DigestFor(width, order), set id | id in order)
  {
    var digest := DigestFor(width, order);
    forall i, j | i in order && j in order && digest(i.0, i.1) == digest(j.0, j.1)
      ensures i == j
    {
      NumberedApart(width, order, i, j);
    }
  }

  lemma NumberedApart(width: nat, order: seq<Identity>, i: Identity, j: Identity)
    requires |order| <= Power(width) && i in order && j in order
    requires Hex(width, IndexOf(order, (i.0, i.1))) == Hex(width, IndexOf(order, (j.0, j.1)))
    ensures i == j
  {
    assert i == (i.0, i.1) && j == (j.0, j.1);
    HexIsInjective(width, IndexOf(order, i), IndexOf(order, j));
  }
}
