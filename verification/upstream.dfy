/**
 * The records the Companies House and HMRC APIs return, and the API calls
 * themselves as plain functions of their arguments (what a request returns
 * is an input to the model; None stands for a failed request or a falsy body).
 */
module Upstream {
  import opened Wrappers
  import Officers
  import Accounts

  /** One item of a `/search/companies` page. */
  datatype SearchItem = SearchItem(number: Option<string>, title: Option<string>)

  /** The parts of a `/company/{number}` response the core reads; each key may be missing. */
  datatype Details = Details(status: Option<string>, sicCodes: Option<seq<string>>, address: Option<map<string, string>>)

  /** A company kept by the search: its number and its search title. */
  datatype Company = Company(number: string, name: string)

  datatype Api = Api(
    /** The `items` of the search page for (query, start_index). */
    search: (string, nat) -> Option<seq<SearchItem>>,
    /** `get_company_details(number)`. */
    details: string -> Option<Details>,
    /** The `items` of `get_company_officers(number)`. */
    officers: string -> Option<seq<Officers.Officer>>,
    /** The `items` of the filing history of `number`. */
    filings: string -> Option<seq<Accounts.Filing>>,
    /** `get_vat_info(number).get('vatNumber')`. */
    vatNumber: string -> Option<string>,
    /** `get_company_turnover(vat_number)`. */
    hmrcTurnover: string -> Option<real>
  )
}
