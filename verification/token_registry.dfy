/** The registry as the program has it: fixed arrays changed in place. */
module RegistryClass {
  import opened RegistrySpec

  class TokenRegistry {
    var nextToken: nat
    const tokenToChannel: array<nat>
    const tokenUsed: array<bool>
    const freeTokens: array<nat>
    var freeTokenCount: nat
    const freeChannels: array<nat>
    var freeChannelCount: nat
    const channelRefCount: array<nat>
    const channelMode: array<Mode>
    const groupToChannel: array<int>

    ghost var ledger: Ledger

    ghost function Parts(): set<object> {
      {this, tokenToChannel, tokenUsed, freeTokens, freeChannels, channelRefCount, channelMode, groupToChannel}
    }

    ghost predicate Separate() {
      && tokenToChannel != freeTokens && tokenToChannel != freeChannels && tokenToChannel != channelRefCount
      && freeTokens != freeChannels && freeTokens != channelRefCount && freeChannels != channelRefCount
      && freeTokens.Length == tokenUsed.Length == tokenToChannel.Length
      && freeChannels.Length == channelMode.Length == channelRefCount.Length
    }

    ghost function View(): Registry
      reads Parts()
    {
      Registry(nextToken, tokenToChannel[..], tokenUsed[..],
               if freeTokenCount <= freeTokens.Length then freeTokens[..freeTokenCount] else [],
               if freeChannelCount <= freeChannels.Length then freeChannels[..freeChannelCount] else [],
               channelRefCount[..], channelMode[..], groupToChannel[..])
    }

    ghost predicate Shaped()
      reads this
    {
      Separate() && freeTokenCount <= freeTokens.Length && freeChannelCount <= freeChannels.Length
    }

    ghost predicate Valid()
      reads Parts()
    {
      Shaped() && Inv(View(), ledger)
    }

    constructor (bindings: nat, channels: nat, groups: nat)
      ensures Valid()
      ensures fresh(tokenToChannel) && fresh(tokenUsed) && fresh(freeTokens) && fresh(freeChannels)
      ensures fresh(channelRefCount) && fresh(channelMode) && fresh(groupToChannel)
      ensures World(View(), ledger) == Fresh(bindings, channels, groups)
    {
      nextToken, freeTokenCount, freeChannelCount := 0, 0, channels;
      tokenToChannel, tokenUsed := new nat[bindings](i => 0), new bool[bindings](i => false);
      freeTokens, freeChannels := new nat[bindings](i => 0), new nat[channels](i => 0);
      channelRefCount, channelMode := new nat[channels](i => 0), new Mode[channels](i => Exclusive);
      groupToChannel := new int[groups](i => NO_CHANNEL);
      ledger := Ledger(map[], Repeat(channels, 0));
      new;
      FillFreeChannels();
      assert freeChannels[..channels] == freeChannels[..];
      BuiltIsFresh(View(), ledger, bindings, channels, groups);
    }

    /** The free stack of channels starts as 0, 1, ..., so the last channel is handed out first. */
    method FillFreeChannels()
      modifies freeChannels
      ensures freeChannels[..] == Upto(freeChannels.Length)
    {
      for i := 0 to freeChannels.Length
        invariant forall j :: 0 <= j < i ==> freeChannels[j] == j
      {
        freeChannels[i] := i;
      }
    }

    lemma BuiltIsFresh(r: Registry, l: Ledger, bindings: nat, channels: nat, groups: nat)
      requires r.nextToken == 0 && r.freeTokens == []
      requires r.tokenToChannel == Repeat(bindings, 0) && r.tokenUsed == Repeat(bindings, false)
      requires r.freeChannels == Upto(channels) && r.refCount == Repeat(channels, 0)
      requires r.mode == Repeat(channels, Exclusive) && r.groupToChannel == Repeat(groups, NO_CHANNEL)
      requires l == Ledger(map[], Repeat(channels, 0))
      ensures World(r, l) == Fresh(bindings, channels, groups) && Inv(r, l)
    {
      FreshSatisfiesInv(bindings, channels, groups);
    }

    method PopFreeChannel() returns (result: Result<nat>)
      requires Separate() && freeChannelCount <= freeChannels.Length
      modifies this`freeChannelCount
      ensures old(View().freeChannels) == [] ==> result == Throws(NoFreeChannel) && View() == old(View())
      ensures old(View().freeChannels) != [] ==>
                && result == Ok(Last(old(View().freeChannels)))
                && View() == old(View()).(freeChannels := Pop(old(View().freeChannels)))
      ensures freeChannelCount <= freeChannels.Length
    {
      if freeChannelCount == 0 {
        return Throws(NoFreeChannel);
      }
      freeChannelCount := freeChannelCount - 1;
      result := Ok(freeChannels[freeChannelCount]);
    }

    method AllocateToken(channel: nat) returns (result: Result<nat>)
      requires Separate() && freeTokenCount <= freeTokens.Length
      requires SizesOk(View()) && TokensOk(View())
      modifies this`nextToken, this`freeTokenCount, tokenToChannel, tokenUsed
      ensures (View(), result) == RegistrySpec.AllocateToken(old(View()), channel)
      ensures freeTokenCount <= freeTokens.Length
    {
      var token: nat;
      if freeTokenCount > 0 {
        assert View().freeTokens[freeTokenCount - 1] < nextToken;
        freeTokenCount := freeTokenCount - 1;
        token := freeTokens[freeTokenCount];
        assert freeTokens[..freeTokenCount] == Pop(old(View().freeTokens));
      } else {
        if nextToken >= tokenToChannel.Length {
          return Throws(CapacityExceeded);
        }
        token := nextToken;
        nextToken := nextToken + 1;
      }
      tokenToChannel[token] := channel;
      tokenUsed[token] := true;
      result := Ok(token);
    }

    /** Pop a free channel and charge it for its first token. */
    method Open(mode: Mode) returns (result: Result<nat>)
      requires Shaped() && SizesOk(View()) && ChannelsOk(View())
      modifies this`freeChannelCount, channelRefCount, channelMode
      ensures Shaped()
      ensures old(View().freeChannels) == [] ==> result == Throws(NoFreeChannel) && View() == old(View())
      ensures old(View().freeChannels) != [] ==>
                && result == Ok(Last(old(View().freeChannels)))
                && View() == OpenChannel(old(View()), mode)
    {
      result := PopFreeChannel();
      if result.Ok? {
        var channel := result.value;
        assert channel in old(View().freeChannels);
        channelRefCount[channel] := 1;
        channelMode[channel] := mode;
      }
    }

    /** A channel of one's own. */
    method Acquire() returns (result: Result<nat>)
      requires Valid()
      modifies Parts()
      ensures Valid()
      ensures (View(), result) == AcquireAlone(old(View()))
      ensures ledger == AfterAcquire(old(ledger), Alone, ChargedAlone(old(View())), result)
    {
      ghost var r, l := View(), ledger;
      AcquireAloneKeepsInv(r, l);
      result := OpenAndAllocate();
      ledger := AfterAcquire(l, Alone, ChargedAlone(r), result);
    }

    method OpenAndAllocate() returns (result: Result<nat>)
      requires Shaped() && SizesOk(View()) && TokensOk(View()) && ChannelsOk(View())
      modifies Parts()
      ensures Shaped() && ledger == old(ledger)
      ensures (View(), result) == AcquireAlone(old(View()))
    {
      var channel := Open(Exclusive);
      if channel.Throws? {
        return Throws(channel.error);
      }
      result := AllocateToken(channel.value);
    }

    /** The channel of a group: join it if the group has one, or open one and remember it. */
    method ChargeGroup(group: nat) returns (result: Result<nat>)
      requires Shaped() && SizesOk(View()) && TokensOk(View()) && ChannelsOk(View()) && group < groupToChannel.Length
      requires groupToChannel[group] == NO_CHANNEL || 0 <= groupToChannel[group] < channelRefCount.Length
      modifies this`freeChannelCount, channelRefCount, channelMode, groupToChannel
      ensures Shaped() && SizesOk(View()) && TokensOk(View())
      ensures var r := old(View());
              if GroupIsOpen(r, group) then
                result == Ok(r.groupToChannel[group]) && View() == Join(r, r.groupToChannel[group])
              else if r.freeChannels == [] then result == Throws(NoFreeChannel) && View() == r
              else
                && result == Ok(Last(r.freeChannels))
                && View() == OpenChannel(r, Shared).(groupToChannel := r.groupToChannel[group := Last(r.freeChannels)])
    {
      var channel := groupToChannel[group];
      if channel != NO_CHANNEL && channelRefCount[channel] > 0 {
        channelRefCount[channel] := channelRefCount[channel] + 1;
        channelMode[channel] := Shared;
        result := Ok(channel);
      } else {
        result := Open(Shared);
        if result.Ok? {
          groupToChannel[group] := result.value;
        }
      }
    }

    /** Join the group's channel, or open one for the group. */
    method AcquireInGroup(group: nat) returns (result: Result<nat>)
      requires Valid() && group < groupToChannel.Length
      modifies Parts()
      ensures Valid()
      ensures (View(), result) == AcquireMember(old(View()), group)
      ensures ledger == AfterAcquire(old(ledger), Member(group), ChargedMember(old(View()), group), result)
    {
      ghost var r, l := View(), ledger;
      AcquireMemberKeepsInv(r, l, group);
      var channel := ChargeGroup(group);
      if channel.Throws? {
        return Throws(channel.error);
      }
      result := AllocateToken(channel.value);
      ledger := AfterAcquire(l, Member(group), channel.value, result);
    }

    /** The loop of `release` over the groups. */
    method ForgetGroup(channel: nat)
      modifies groupToChannel
      ensures groupToChannel[..] == ForgetFirst(old(groupToChannel[..]), channel)
    {
      ghost var before := groupToChannel[..];
      for g := 0 to groupToChannel.Length
        invariant groupToChannel[..] == before
        invariant ForgetFirst(before, channel) == before[..g] + ForgetFirst(before[g..], channel)
      {
        if groupToChannel[g] == channel {
          groupToChannel[g] := NO_CHANNEL;
          assert groupToChannel[..] == before[..g] + ([NO_CHANNEL] + before[g..][1..]);
          break;
        }
        assert before[..g + 1] == before[..g] + [before[g]] && before[g..][1..] == before[g + 1..];
      }
    }

    /** One user fewer; the last one gives the channel back and takes it away from its group. */
    method DischargeChannel(channel: nat)
      requires Shaped() && channel < channelRefCount.Length && channelRefCount[channel] > 0
      requires channelRefCount[channel] == 1 ==> freeChannelCount < freeChannels.Length
      modifies this`freeChannelCount, freeChannels, channelRefCount, groupToChannel
      ensures Shaped() && View() == Discharge(old(View()), channel)
    {
      channelRefCount[channel] := channelRefCount[channel] - 1;
      if channelRefCount[channel] == 0 {
        freeChannels[freeChannelCount] := channel;
        freeChannelCount := freeChannelCount + 1;
        ForgetGroup(channel);
      }
    }

    method RetireToken(token: nat)
      requires Shaped() && token < tokenUsed.Length && freeTokenCount < freeTokens.Length
      modifies this`freeTokenCount, freeTokens, tokenUsed
      ensures Shaped()
      ensures View() == old(View()).(tokenUsed := old(View()).tokenUsed[token := false],
                                     freeTokens := old(View()).freeTokens + [token])
    {
      tokenUsed[token] := false;
      freeTokens[freeTokenCount] := token;
      freeTokenCount := freeTokenCount + 1;
    }

    lemma ReleaseCases(w: World, t: int)
      requires Inv(w.r, w.l)
      ensures w.r.IsLive(t) ==>
                && w.r.refCount[w.r.tokenToChannel[t]] > 0
                && Perform(w, Free(t)) == World(RegistrySpec.Release(w.r, t).0, w.l.(owners := w.l.owners - {t as nat}))
      ensures !w.r.IsLive(t) ==> Perform(w, Free(t)) == w
    {
      ReleaseFailsExactlyOnDeadTokens(w.r, w.l, t);
    }

    /** What a release of a live token relies on, and what it leaves behind. */
    lemma ReleaseIsSound(r: Registry, l: Ledger, t: nat)
      requires Inv(r, l) && r.IsLive(t)
      ensures r.tokenToChannel[t] < |r.refCount| && r.refCount[r.tokenToChannel[t]] > 0
      ensures |r.freeTokens| < r.MaxBindings() && |r.freeChannels| < |r.refCount|
      ensures RegistrySpec.Release(r, t).1 == Ok(())
      ensures RegistrySpec.Release(r, t).0 ==
                Discharge(r, r.tokenToChannel[t]).(tokenUsed := r.tokenUsed[t := false], freeTokens := r.freeTokens + [t])
      ensures Inv(RegistrySpec.Release(r, t).0, l.(owners := l.owners - {t}))
    {
      LiveTokenCharges(r, l, t);
      LastUserFitsFreeStack(r, l, t);
      ReleaseKeepsInv(r, l, t);
    }

    method Release(token: int) returns (result: Result<()>)
      requires Valid()
      modifies Parts()
      ensures Valid()
      ensures result.Ok? <==> old(View()).IsLive(token)
      ensures result.Ok? ==>
                && old(View()).refCount[old(View()).tokenToChannel[token]] > 0
                && View() == RegistrySpec.Release(old(View()), token).0
                && ledger == old(ledger).(owners := old(ledger).owners - {token})
      ensures result.Throws? ==> View() == old(View()) && ledger == old(ledger)
      ensures result.Throws? ==> result.error == if 0 <= token < old(nextToken) then AlreadyFree else InvalidToken
      ensures World(View(), ledger) == Perform(old(World(View(), ledger)), Free(token))
    {
      ReleaseCases(World(View(), ledger), token);
      if !(0 <= token < nextToken) {
        return Throws(InvalidToken);
      }
      if !tokenUsed[token] {
        return Throws(AlreadyFree);
      }
      result := ReleaseLive(token);
    }

    /** The changes of `release`: the channel's first, then the token's. */
    method GiveBack(token: nat)
      requires Shaped() && token < tokenUsed.Length && freeTokenCount < freeTokens.Length
      requires tokenToChannel[token] < channelRefCount.Length && channelRefCount[tokenToChannel[token]] > 0
      requires freeChannelCount < freeChannels.Length
      modifies Parts()
      ensures Shaped() && ledger == old(ledger)
      ensures View() == Discharge(old(View()), old(View()).tokenToChannel[token]).(
                          tokenUsed := old(View()).tokenUsed[token := false],
                          freeTokens := old(View()).freeTokens + [token])
    {
      DischargeChannel(tokenToChannel[token]);
      RetireToken(token);
    }

    method ReleaseLive(token: nat) returns (result: Result<()>)
      requires Valid() && View().IsLive(token)
      modifies Parts()
      ensures Valid() && result == Ok(())
      ensures old(View()).refCount[old(View()).tokenToChannel[token]] > 0
      ensures View() == RegistrySpec.Release(old(View()), token).0
      ensures ledger == old(ledger).(owners := old(ledger).owners - {token})
    {
      ghost var r, l := View(), ledger;
      ReleaseIsSound(r, l, token);
      if freeTokenCount >= freeTokens.Length {
        return Throws(FreePoolOverflow);
      }
      GiveBack(token);
      ledger := l.(owners := l.owners - {token});
      result := Ok(());
    }

    method Resolve(token: nat) returns (channel: nat)
      requires Valid() && View().IsLive(token)
      ensures channel == RegistrySpec.Resolve(View(), token) && channel < channelRefCount.Length
    {
      channel := tokenToChannel[token];
    }
  }
}
