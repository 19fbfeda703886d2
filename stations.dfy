/**
 * Station records shared by the schedulers: the per-AC registry entry
 * (`MasterInfo`), access categories, and the per-user table of a TXVECTOR
 * (`HeMuUserInfoMap`, a `std::map` ordered by STA-ID), kept here as a list
 * sorted by ascending AID.
 */
module Stations {
  import opened Wrappers

  /** 16-bit association identifier (`uint16_t aid`). */
  newtype Aid = x: int | 0 <= x < 0x1_0000

  /** 48-bit MAC address. */
  newtype Mac = x: int | 0 <= x < 0x1_0000_0000_0000

  /** Access categories, in the order of ns-3's `AcIndex` (BE, BK, VI, VO). */
  datatype Ac = AcBe | AcBk | AcVi | AcVo

  const AllAcs: seq<Ac> := [AcBe, AcBk, AcVi, AcVo]

  /** `AllAcs` lists every access category. */
  lemma AcListed(ac: Ac)
    ensures ac in AllAcs
  {
    match ac
    case AcBe => assert AllAcs[0] == ac;
    case AcBk => assert AllAcs[1] == ac;
    case AcVi => assert AllAcs[2] == ac;
    case AcVo => assert AllAcs[3] == ac;
  }

  /** A registry entry: AID, MAC (or MLD) address and the credits used by the credit-based variants. */
  datatype MasterInfo = MasterInfo(aid: Aid, address: Mac, credits: int)

  /** No AID appears twice in a station list. */
  predicate UniqueAids(l: seq<MasterInfo>)
  {
    forall i, j :: 0 <= i < j < |l| ==> l[i].aid != l[j].aid
  }

  /** The tail of a list with unique AIDs has unique AIDs, none of them the head's. */
  lemma UniqueAidsTail(l: seq<MasterInfo>)
    requires l != [] && UniqueAids(l)
    ensures UniqueAids(l[1..]) && forall x :: x in l[1..] ==> x.aid != l[0].aid
  {
    forall i, j | 0 <= i < j < |l[1..]| ensures l[1..][i].aid != l[1..][j].aid {
      assert l[1..][i] == l[i + 1] && l[1..][j] == l[j + 1];
    }
    forall x | x in l[1..] ensures x.aid != l[0].aid {
      var k :| 0 <= k < |l[1..]| && l[1..][k] == x;
      assert l[k + 1] == x;
    }
  }

  /** A station whose AID the list does not hold can head it. */
  lemma UniqueAidsCons(x: MasterInfo, t: seq<MasterInfo>)
    requires UniqueAids(t) && forall y :: y in t ==> y.aid != x.aid
    ensures UniqueAids([x] + t)
  {
    var r := [x] + t;
    forall i, j | 0 <= i < j < |r| ensures r[i].aid != r[j].aid {
      assert r[j] == t[j - 1];
      if i == 0 {
        assert t[j - 1] in t;
      } else {
        assert r[i] == t[i - 1];
      }
    }
  }

  /** One user of a multi-user TXVECTOR, reduced to its STA-ID and its RU. */
  datatype UserInfo<R> = UserInfo(aid: Aid, ru: R)

  predicate AidsAscending<R>(u: seq<UserInfo<R>>)
  {
    forall i, j :: 0 <= i < j < |u| ==> u[i].aid < u[j].aid
  }

  function AidsOf<R>(u: seq<UserInfo<R>>): set<Aid>
  {
    if u == [] then {} else {u[0].aid} + AidsOf(u[1..])
  }

  lemma {:induction false} AidsOfBelow<R>(u: seq<UserInfo<R>>, b: Aid)
    requires forall i :: 0 <= i < |u| ==> b < u[i].aid
    ensures forall a :: a in AidsOf(u) ==> b < a
  {
    if u != [] {
      AidsOfBelow(u[1..], b);
    }
  }

  function Lookup<R>(u: seq<UserInfo<R>>, aid: Aid): Option<R>
  {
    if u == [] then None else if u[0].aid == aid then Some(u[0].ru) else Lookup(u[1..], aid)
  }

  /** `SetHeMuUserInfo`: insert the user, or overwrite the entry with the same STA-ID. */
  function SetUser<R>(u: seq<UserInfo<R>>, aid: Aid, ru: R): seq<UserInfo<R>>
  {
    if u == [] || aid < u[0].aid then [UserInfo(aid, ru)] + u
    else if aid == u[0].aid then [UserInfo(aid, ru)] + u[1..]
    else [u[0]] + SetUser(u[1..], aid, ru)
  }

  lemma {:induction false} LookupAbsent<R>(u: seq<UserInfo<R>>, aid: Aid)
    requires forall i :: 0 <= i < |u| ==> u[i].aid != aid
    ensures Lookup(u, aid) == None
  {
    if u != [] {
      LookupAbsent(u[1..], aid);
    }
  }

  /** The table behaves as a map ordered by STA-ID. */
  lemma {:induction false} SetUserSpec<R>(u: seq<UserInfo<R>>, aid: Aid, ru: R)
    requires AidsAscending(u)
    ensures AidsAscending(SetUser(u, aid, ru))
    ensures AidsOf(SetUser(u, aid, ru)) == AidsOf(u) + {aid}
    ensures forall b :: Lookup(SetUser(u, aid, ru), b) == if b == aid then Some(ru) else Lookup(u, b)
  {
    var r := SetUser(u, aid, ru);
    if u == [] || aid < u[0].aid {
      assert r[1..] == u;
      if u != [] {
        LookupAbsent(u, aid);
      }
    } else if aid == u[0].aid {
      assert r[1..] == u[1..];
    } else {
      var t := SetUser(u[1..], aid, ru);
      SetUserSpec(u[1..], aid, ru);
      assert r == [u[0]] + t;
      assert r[1..] == t;
      AidsOfBelow(u[1..], u[0].aid);
      AscendingCons(u[0], t);
    }
  }

  /** An entry below every STA-ID of a sorted table can head it. */
  lemma AscendingCons<R>(x: UserInfo<R>, t: seq<UserInfo<R>>)
    requires AidsAscending(t) && forall a :: a in AidsOf(t) ==> x.aid < a
    ensures AidsAscending([x] + t)
  {
    var r := [x] + t;
    forall i, j | 0 <= i < j < |r| ensures r[i].aid < r[j].aid {
      assert r[j] == t[j - 1];
      if i == 0 {
        AidsOfIndex(t, j - 1);
      } else {
        assert r[i] == t[i - 1];
      }
    }
  }

  lemma {:induction false} AidsOfIndex<R>(u: seq<UserInfo<R>>, i: nat)
    requires i < |u|
    ensures u[i].aid in AidsOf(u)
  {
    if i > 0 {
      AidsOfIndex(u[1..], i - 1);
    }
  }

  /** In a table sorted by STA-ID, looking up an entry's STA-ID finds that entry. */
  lemma {:induction false} LookupIndex<R>(u: seq<UserInfo<R>>, i: nat)
    requires AidsAscending(u) && i < |u|
    ensures Lookup(u, u[i].aid) == Some(u[i].ru)
  {
    if i > 0 {
      assert AidsAscending(u[1..]) by {
        forall a, b | 0 <= a < b < |u[1..]| ensures u[1..][a].aid < u[1..][b].aid {
          assert u[1..][a] == u[a + 1] && u[1..][b] == u[b + 1];
        }
      }
      assert u[1..][i - 1] == u[i];
      LookupIndex(u[1..], i - 1);
    }
  }
}
