/** Group membership, kept twice: `channel_members` (channel to its members)
    and `member_channels` (account to its channels). Every change updates
    both views together. */
module Membership {
  import opened Types

  type ChannelMembers = map<Channel, set<AccountId>>
  type MemberChannels = map<AccountId, set<Channel>>

  /** The two views say the same thing: an account is listed in a channel
      exactly when the channel is listed for the account. */
  ghost predicate Mirrored(cm: ChannelMembers, mc: MemberChannels)
  {
    && (forall g, a :: g in cm && a in cm[g] ==> a in mc && g in mc[a])
    && (forall a, g :: a in mc && g in mc[a] ==> g in cm && a in cm[g])
  }

  /** Both inserts of `join_group` / `group_invite`. */
  function AddMember(cm: ChannelMembers, mc: MemberChannels, g: Channel, a: AccountId)
    : (r: (ChannelMembers, MemberChannels))
    requires g in cm && a in mc
    ensures Mirrored(cm, mc) ==> Mirrored(r.0, r.1)
    ensures r.0.Keys == cm.Keys && r.1.Keys == mc.Keys
    ensures a in r.0[g] && g in r.1[a]
  {
    (cm[g := cm[g] + {a}], mc[a := mc[a] + {g}])
  }

  /** Both removals of `leave_group`, then the clean-up: a channel left
      without members is dropped, unless it is "general". */
  function RemoveMember(cm: ChannelMembers, mc: MemberChannels, g: Channel, a: AccountId)
    : (r: (ChannelMembers, MemberChannels))
    requires g in cm && a in mc
    ensures Mirrored(cm, mc) ==> Mirrored(r.0, r.1)
    ensures g !in r.0 <==> cm[g] <= {a} && g != General
    ensures r.0.Keys == if g in r.0 then cm.Keys else cm.Keys - {g}
    ensures g in r.0 ==> r.0[g] == cm[g] - {a}
    ensures r.1.Keys == mc.Keys
    ensures a !in (if g in r.0 then r.0[g] else {}) && g !in r.1[a]
  {
    var left := cm[g] - {a};
    var mc' := mc[a := mc[a] - {g}];
    if left == {} && g != General then
      assert Mirrored(cm, mc) ==> forall b :: b in mc && b != a ==> g !in mc[b] by {
        if Mirrored(cm, mc) {
          forall b | b in mc && b != a ensures g !in mc[b] {
            assert b !in left;
            assert b !in cm[g];
          }
        }
      }
      (cm - {g}, mc')
    else
      (cm[g := left], mc')
  }

  /** Leaving never deletes "general". */
  lemma GeneralSurvivesLeave(cm: ChannelMembers, mc: MemberChannels, a: AccountId)
    requires General in cm && a in mc
    ensures General in RemoveMember(cm, mc, General, a).0
  {
  }
}
