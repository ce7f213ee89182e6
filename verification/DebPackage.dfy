/** The inspector of deb packages: it trusts what the Packages inspector noted. */
module DebPackage {
  import opened Basics
  import opened Opinions
  import Release = AptRelease
  import AptPackages

  const ID := "deb"

  function RequestOpinion(f: Findings, u: Release.Url): Findings {
    if u.deb.Some? then SetRequest(f, ID, Verdict(Pending, ValidUrl, NO_METADATA, AptPackages.DebNotes(u.deb.value)))
    else f
  }

  function FlagNote(m: InspectionMap, id: string, key: string): Option<bool> {
    if id in m && key in m[id].notes && m[id].notes[key].Flag? then Some(m[id].notes[key].flag) else None
  }

  function DebVerdict(f: Findings, s: Release.Subject): Verdict {
    var (md, error) := s.control;
    if error.Some? then Verdict(Rejected, Other(error.value), md, map[])
    else match FlagNote(f.response, AptPackages.ID, "packages-is-valid")
      case None => Verdict(Rejected, NotVerified, md, map[])
      case Some(false) => Verdict(Rejected, InvalidPackages, md, map[])
      case Some(true) => Verdict(Approved, ListedInPackages, md, map[])
  }

  function Inspect(f: Findings, s: Release.Subject): Findings {
    if !Release.MimetypeIs(f, s, AptPackages.DEB) then f else SetResponse(f, ID, DebVerdict(f, s))
  }

  /** A deb is approved exactly when its control file could be read and the packages inspector flagged it as
      listed in a validated file, and rejected otherwise; nothing else gets an opinion. */
  lemma OutcomeIff(f: Findings, s: Release.Subject)
    requires ID !in f.response
    ensures var g, notes := Inspect(f, s), if AptPackages.ID in f.response then f.response[AptPackages.ID].notes else map[];
            var good := s.control.1.None? && "packages-is-valid" in notes && notes["packages-is-valid"] == Flag(true);
            && (ID in g.response <==> f.kind == AptPackages.DEB || AptPackages.DEB in s.mimes)
            && (ID in g.response ==> g.response[ID].opinion == if good then Approved else Rejected)
  {
  }

  /** The request of a deb is left pending, and nothing else gets an opinion. */
  lemma RequestIff(f: Findings, u: Release.Url)
    requires ID !in f.request
    ensures var g := RequestOpinion(f, u);
            && (ID in g.request <==> u.deb.Some?)
            && (ID in g.request ==> g.request[ID].opinion == Pending)
            && g.response == f.response
  {
  }

  class DebInspector {
    constructor () {}

    method InspectRequest(a: Artifact, s: Release.Subject) returns (error: Option<string>)
      modifies a
      ensures match s.url
              case None => error.Some? && a.View() == old(a.View())
              case Some(u) => error.None? && a.View() == RequestOpinion(old(a.View()), u)
    {
      if s.url == None {
        return Some("cannot parse URL");
      }
      if s.url.value.deb.Some? {
        a.SetRequestOpinion(ID, Verdict(Pending, ValidUrl, NO_METADATA, AptPackages.DebNotes(s.url.value.deb.value)));
      }
      error := None;
    }

    method InspectArtifact(a: Artifact, s: Release.Subject)
      modifies a
      ensures a.View() == Inspect(old(a.View()), s)
    {
      if !Release.MimetypeIs(a.View(), s, AptPackages.DEB) {
        return;
      }
      var (md, error) := s.control;
      if error.Some? {
        a.SetResponseOther(ID, Verdict(Rejected, Other(error.value), md, map[]));
        return;
      }
      var valid := FlagNote(a.response, AptPackages.ID, "packages-is-valid");
      if valid == None {
        a.SetResponseOther(ID, Verdict(Rejected, NotVerified, md, map[]));
      } else if !valid.value {
        a.SetResponseOther(ID, Verdict(Rejected, InvalidPackages, md, map[]));
      } else {
        a.SetResponseApproved(ID, ListedInPackages, md, map[]);
      }
    }
  }
}
