/** The administrator hook: the company roster and the communication-method catalog,
    each loaded from storage or seeded, and maintained by append, replace-by-id and
    filter-by-id. */
module AdminModule {
  import opened Wrappers
  import opened Lists
  import opened Entities

  class AdminStore {
    var companies: seq<Company>
    var communicationMethods: seq<CommunicationMethod>

    /** Each collection is the stored list when storage holds one, and the seed list
        otherwise. */
    constructor (storedCompanies: Option<seq<Company>>, storedMethods: Option<seq<CommunicationMethod>>,
                 seedCompanies: seq<Company>, seedMethods: seq<CommunicationMethod>)
      ensures storedCompanies.None? ==> companies == seedCompanies
      ensures storedCompanies.Some? ==> companies == storedCompanies.value
      ensures storedMethods.None? ==> communicationMethods == seedMethods
      ensures storedMethods.Some? ==> communicationMethods == storedMethods.value
    {
      companies := storedCompanies.GetOr(seedCompanies);
      communicationMethods := storedMethods.GetOr(seedMethods);
    }

    /** addCompany: append the record under a freshly generated id. */
    method AddCompany(company: Company, freshId: Id)
      modifies this
      ensures companies == old(companies) + [company.(id := freshId)]
      ensures communicationMethods == old(communicationMethods)
    {
      companies := companies + [company.(id := freshId)];
    }

    /** updateCompany: every company with the record's id becomes the record. */
    method UpdateCompany(updated: Company)
      modifies this
      ensures companies == ReplaceByKey(old(companies), CompanyKey, updated)
      ensures communicationMethods == old(communicationMethods)
      ensures (forall c :: c in old(companies) ==> c.id != updated.id) ==> companies == old(companies)
    {
      if forall c :: c in companies ==> c.id != updated.id {
        ReplaceByKeyAbsent(companies, CompanyKey, updated);
      }
      companies := ReplaceByKey(companies, CompanyKey, updated);
    }

    /** deleteCompany: drop every company with the id, keeping the order of the rest. */
    method DeleteCompany(id: Id)
      modifies this
      ensures companies == RemoveByKey(old(companies), CompanyKey, id)
      ensures communicationMethods == old(communicationMethods)
      ensures (forall c :: c in old(companies) ==> c.id != id) ==> companies == old(companies)
    {
      if forall c :: c in companies ==> c.id != id {
        RemoveByKeyAbsent(companies, CompanyKey, id);
      }
      companies := RemoveByKey(companies, CompanyKey, id);
    }

    /** addCommunicationMethod: append the record under a freshly generated id. */
    method AddCommunicationMethod(m: CommunicationMethod, freshId: Id)
      modifies this
      ensures communicationMethods == old(communicationMethods) + [m.(id := freshId)]
      ensures companies == old(companies)
    {
      communicationMethods := communicationMethods + [m.(id := freshId)];
    }

    /** updateCommunicationMethod: every method with the record's id becomes the record. */
    method UpdateCommunicationMethod(updated: CommunicationMethod)
      modifies this
      ensures communicationMethods == ReplaceByKey(old(communicationMethods), MethodKey, updated)
      ensures companies == old(companies)
      ensures (forall m :: m in old(communicationMethods) ==> m.id != updated.id) ==>
                communicationMethods == old(communicationMethods)
    {
      if forall m :: m in communicationMethods ==> m.id != updated.id {
        ReplaceByKeyAbsent(communicationMethods, MethodKey, updated);
      }
      communicationMethods := ReplaceByKey(communicationMethods, MethodKey, updated);
    }

    /** deleteCommunicationMethod: drop every method with the id, keeping the order of the rest. */
    method DeleteCommunicationMethod(id: Id)
      modifies this
      ensures communicationMethods == RemoveByKey(old(communicationMethods), MethodKey, id)
      ensures companies == old(companies)
      ensures (forall m :: m in old(communicationMethods) ==> m.id != id) ==>
                communicationMethods == old(communicationMethods)
    {
      if forall m :: m in communicationMethods ==> m.id != id {
        RemoveByKeyAbsent(communicationMethods, MethodKey, id);
      }
      communicationMethods := RemoveByKey(communicationMethods, MethodKey, id);
    }
  }
}
