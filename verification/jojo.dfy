/**
 The bot's own catalog as the documentation page declares it: eleven
 sections, listed in the sidebar in this order, with their commands in
 display order.
 */
module JojoCatalog {
  import opened Catalog
  import opened Pager
  import opened View

  const Aura: Section := Section("Aura Management", CommandIcon, [
    Command("top"), Command("aura"), Command("daily"), Command("trade")])

  const Daily: Section := Section("Daily Activities", CommandIcon, [
    Command("daily"), Command("weekly")])

  const Music: Section := Section("Music Commands", MusicIcon, [
    Command("join/leave"), Command("play"), Command("pause/resume"), Command("next"),
    Command("repeat/autoplay"), Command("volume"), Command("queue"), Command("settings"),
    Command("nightcore"), Command("8D"), Command("vaporwave"), Command("cleareffect")])

  const User: Section := Section("User  Interaction", CommandIcon, [
    Command("userinfo"), Command("profile"), Command("setnick"), Command("feedback"),
    Command("avatar"), Command("afk")])

  const Server: Section := Section("Server Interaction", ShieldIcon, [
    Command("membercount"), Command("auditlog"), Command("clonechannel"), Command("purge"),
    Command("snipe"), Command("timer"), Command("instainfo"), Command("post"),
    Command("instavideo"), Command("cleanlinks"), Command("cleanfiles"), Command("cleanimages")])

  const Fun: Section := Section("Fun Commands", SparklesIcon, [
    Command("trivia"), Command("rps"), Command("dice"), Command("coinflip"),
    Command("flirt"), Command("roast"), Command("love"), Command("monopoly"),
    Command("cuddle"), Command("hug"), Command("kiss"), Command("pat"),
    Command("slap"), Command("punch"), Command("bite"), Command("highfive"),
    Command("wave"), Command("boop"), Command("snuggle"), Command("bully"),
    Command("think"), Command("akinator"), Command("wordle")])

  const Shop: Section := Section("Shop System", CommandIcon, [
    Command("shop"), Command("buy")])

  const Management: Section := Section("Server Management", ShieldIcon, [
    Command("kick/ban"), Command("settempvc"), Command("interface"), Command("stickyvc"),
    Command("dev-announce"), Command("setprefix"), Command("setup"), Command("setlogchannel"),
    Command("setmentionlimit"), Command("blocklinks"), Command("setwelcome")])

  const Games: Section := Section("Aura Games", GamepadIcon, [
    Command("dropcard"), Command("mycards"), Command("sellcard")])

  const Utility: Section := Section("Utility Commands", CommandIcon, [
    Command("search"), Command("imagine"), Command("describe"), Command("math"),
    Command("anime"), Command("manga"), Command("movie"), Command("weather"),
    Command("translate"), Command("tts"), Command("finance"), Command("unitconvert"),
    Command("programming"), Command("health")])

  const Moderation: Section := Section("Moderation", ShieldIcon, [
    Command("chatban"), Command("vcban"), Command("vcmute"), Command("vcdeafen"),
    Command("vcdrag"), Command("lock"), Command("unlock"), Command("lockall"),
    Command("unlockall"), Command("warn"), Command("mute"), Command("unmute")])

  const Jojo: Catalog := Catalog(
    ["aura", "daily", "music", "user", "server", "fun",
     "shop", "management", "games", "utility", "moderation"],
    map[
      "aura" := Aura, "daily" := Daily, "music" := Music, "user" := User,
      "server" := Server, "fun" := Fun, "shop" := Shop, "management" := Management,
      "games" := Games, "utility" := Utility, "moderation" := Moderation])

  /** The sidebar lists each section exactly once, and no section is empty,
      so the range invariant applies to this catalog. */
  lemma JojoWellFormed()
    ensures WellFormed(Jojo)
    ensures NoEmptySection(Jojo)
  {
    JojoKeysDistinct();
    JojoKeysListed();
    JojoSectionsNonEmpty();
  }

  lemma JojoKeysDistinct()
    ensures DistinctKeys(Jojo.keys)
  {
  }

  lemma JojoKeysListed()
    ensures forall i :: 0 <= i < |Jojo.keys| ==> Jojo.keys[i] in Jojo.sections
    ensures forall k :: k in Jojo.sections ==> k in Jojo.keys
  {
  }

  lemma JojoSectionsNonEmpty()
    ensures NoEmptySection(Jojo)
  {
  }

  /** The state on load is valid: aura has four commands, so one page. */
  lemma InitialValid()
    ensures Initial.activeSection == "aura" && Initial.currentPage == 1
    ensures Valid(Jojo, Initial)
    ensures TotalPages(Aura.commands) == 1
  {
  }

  /** Every state reachable from the initial one by clicks is valid, so the
      section lookup at render time never fails. */
  lemma ReachableStatesValid(events: seq<Event>)
    ensures Valid(Jojo, Run(Jojo, Initial, events))
    ensures Render(Jojo, Run(Jojo, Initial, events)).Some?
  {
    JojoWellFormed();
    InitialValid();
    RunPreservesValid(Jojo, Initial, events);
  }

  /** Page counts of the declared sections. */
  lemma PageCounts()
    ensures |Music.commands| == 12 && TotalPages(Music.commands) == 2
    ensures |Aura.commands| == 4 && TotalPages(Aura.commands) == 1
    ensures |Shop.commands| == 2 && TotalPages(Shop.commands) == 1
    ensures |Fun.commands| == 23 && TotalPages(Fun.commands) == 4
  {
  }

  /** The fun section: page one shows trivia to roast, page four shows the
      last five commands, snuggle to wordle, and "next" is disabled there. */
  lemma FunPages()
    ensures Window(Fun.commands, 1)
         == [Command("trivia"), Command("rps"), Command("dice"),
             Command("coinflip"), Command("flirt"), Command("roast")]
    ensures Window(Fun.commands, 4)
         == [Command("snuggle"), Command("bully"), Command("think"),
             Command("akinator"), Command("wordle")]
    ensures !Enabled(Jojo, ViewState("fun", 4), NextClick)
  {
    FunFirstPage();
    FunLastPage();
  }

  lemma FunFirstPage()
    ensures Window(Fun.commands, 1)
         == [Command("trivia"), Command("rps"), Command("dice"),
             Command("coinflip"), Command("flirt"), Command("roast")]
  {
  }

  lemma FunLastPage()
    ensures Window(Fun.commands, 4)
         == [Command("snuggle"), Command("bully"), Command("think"),
             Command("akinator"), Command("wordle")]
  {
  }

  /** The shop section has a single page, so the pager is hidden and
      neither button can be clicked. */
  lemma ShopHasNoPager()
    ensures Render(Jojo, ViewState("shop", 1)).Some?
    ensures !Render(Jojo, ViewState("shop", 1)).value.pagerShown
    ensures !Enabled(Jojo, ViewState("shop", 1), PrevClick)
    ensures !Enabled(Jojo, ViewState("shop", 1), NextClick)
  {
  }

  /** From page three of fun, choosing music (the third sidebar button)
      lands on page one of music. */
  lemma FunToMusic()
    ensures Step(Jojo, ViewState("fun", 3), SidebarClick(2)) == ViewState("music", 1)
  {
  }
}
